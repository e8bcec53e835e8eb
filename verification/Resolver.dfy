/** The resolver object and the classifier, in the form the script runs them. */
module Resolver {
  import opened Wrappers
  import opened Versions
  import opened Packages
  import opened Indexes
  import opened Resolution
  import opened ResolutionInvariant
  import opened ResolutionTheorems

  class DependencyResolver {
    const rhoai: RhoaiIndex
    const pypi: PypiClient
    var fallbackReasons: map<string, Reason>

    ghost function TheWorld(): World {
      World(rhoai.site, pypi.site)
    }

    ghost predicate Valid()
      reads this, rhoai, pypi
    {
      rhoai.Valid() && pypi.Valid() && CleanWorld(TheWorld())
    }

    constructor (rhoai: RhoaiIndex, pypi: PypiClient)
      requires rhoai.Valid() && pypi.Valid() && CleanWorld(World(rhoai.site, pypi.site))
      ensures Valid() && this.rhoai == rhoai && this.pypi == pypi && fallbackReasons == map[]
    {
      this.rhoai, this.pypi, fallbackReasons := rhoai, pypi, map[];
    }

    /**
     * The breadth-first loop. On success it returns the pins of the finished run, which are sound;
     * on failure it raises what the run raises. The fallback reasons are kept across calls.
     */
    method Resolve(directDeps: seq<Dep>) returns (r: Result<map<string, Pin>, ResolveError>)
      requires Valid() && CleanDeps(directDeps)
      modifies this`fallbackReasons, rhoai`packages, pypi`infoCache, pypi`requiresCache
      ensures Valid()
      ensures match Run(TheWorld(), Start(directDeps, old(fallbackReasons)))
              case Ok(s) =>
                r == Ok(s.resolved) && fallbackReasons == s.reasons && Sound(TheWorld(), directDeps, s)
              case Err(e) => r == Err(e)
    {
      hide Step, Inv, Sound, Choose, Satisfies, CleanWorld, Demand;
      ghost var w := TheWorld();
      ghost var outcome := Run(w, Start(directDeps, fallbackReasons));
      var resolved: map<string, Pin> := map[];
      var agenda := Agenda(map[], []);
      for i := 0 to |directDeps|
        invariant DemandAll(agenda, directDeps[i..]) == DemandAll(Agenda(map[], []), directDeps)
      {
        assert directDeps[i..][1..] == directDeps[i + 1..];
        agenda := Demand(agenda, directDeps[i]);
      }
      var visited: set<string> := {};
      StartHasInv(w, directDeps, fallbackReasons);
      while agenda.queue != []
        invariant Valid() && Inv(w, directDeps, State(resolved, agenda, visited, fallbackReasons))
        invariant Run(w, State(resolved, agenda, visited, fallbackReasons)) == outcome
        decreases |Universe(w) - visited|, |agenda.queue|
      {
        ghost var s := State(resolved, agenda, visited, fallbackReasons);
        if Step(w, s).Ok? {
          StepDecreases(w, s);
          StepKeepsInv(w, directDeps, s);
        }
        var failure;
        failure, resolved, agenda, visited := HandleFirst(directDeps, resolved, agenda, visited);
        if failure.Some? {
          return Err(failure.value);
        }
      }
      if outcome.Ok? {
        ResolutionIsSound(w, directDeps, old(fallbackReasons));
      }
      return Ok(resolved);
    }

    /** The best RHOAI version or else the best PyPI version, with the reason for a first fallback. */
    method Pick(norm: string, constraint: string) returns (r: Result<Pin, ResolveError>)
      requires Valid() && NormalizeName(norm) == norm && CleanName(norm)
      modifies this`fallbackReasons, rhoai`packages, pypi`infoCache
      ensures Valid() && r == Choose(TheWorld(), norm, constraint)
      ensures fallbackReasons == if r.Ok? then NoteFallback(TheWorld(), old(fallbackReasons), norm, r.value, constraint)
                                 else old(fallbackReasons)
    {
      hide RhoaiBest, PypiBest, CleanWorld;
      var rhoaiResult := rhoai.FindBest(norm, constraint);
      if rhoaiResult.Err? {
        return Err(Raised(rhoaiResult.error));
      }
      if rhoaiResult.value.Some? {
        return Ok(Pin(rhoaiResult.value.value.0, FromRhoai(rhoaiResult.value.value.1)));
      }
      var pypiResult := pypi.FindBest(norm, constraint);
      if pypiResult.Err? {
        return Err(pypiResult.error);
      }
      if pypiResult.value.None? {
        return Err(Unresolvable(norm, constraint));
      }
      if norm !in fallbackReasons {
        fallbackReasons := fallbackReasons[norm := if norm in rhoai.site.known then NoneSatisfies(constraint)
                                                   else NotInRhoai];
      }
      return Ok(Pin(pypiResult.value.value.0, FromPypi(pypiResult.value.value.1)));
    }

    /** The loop body: one queue entry. */
    method HandleFirst(ghost directDeps: seq<Dep>, resolved0: map<string, Pin>, agenda0: Agenda, visited0: set<string>)
      returns (failure: Option<ResolveError>, resolved: map<string, Pin>, agenda: Agenda, visited: set<string>)
      requires Valid() && agenda0.queue != []
      requires Inv(TheWorld(), directDeps, State(resolved0, agenda0, visited0, fallbackReasons))
      modifies this`fallbackReasons, rhoai`packages, pypi`infoCache, pypi`requiresCache
      ensures Valid()
      ensures match Step(TheWorld(), State(resolved0, agenda0, visited0, old(fallbackReasons)))
              case Ok(t) => failure == None && t == State(resolved, agenda, visited, fallbackReasons)
              case Err(e) => failure == Some(e)
    {
      hide Choose, NoteFallback, Satisfies, CleanWorld, Demand, Justified, Spread, Retired, Demanded, NormalizeName;
      ghost var w := TheWorld();
      PopKeepsInv(w, directDeps, State(resolved0, agenda0, visited0, fallbackReasons));
      resolved, visited := resolved0, visited0;
      var norm := NormalizeName(agenda0.queue[0].0);
      agenda := agenda0.(queue := agenda0.queue[1..]);
      assert NormalizeName(norm) == norm && CleanName(norm);
      var constraint := agenda.ConstraintOf(norm);
      if norm in resolved {
        var current := resolved[norm];
        var ok := VersionSatisfies(current.version, constraint);
        if ok.Err? {
          return Some(Raised(ok.error)), resolved, agenda, visited;
        }
        if ok.value {
          return None, resolved, agenda, visited;
        }
        if current.origin.FromPypi? {
          return Some(Conflict(norm, current.version, constraint)), resolved, agenda, visited;
        }
        resolved := resolved - {norm};
        fallbackReasons := fallbackReasons[norm := Abandoned(current.version, constraint)];
      }
      var picked := Pick(norm, constraint);
      if picked.Err? {
        return Some(picked.error), resolved, agenda, visited;
      }
      resolved := resolved[norm := picked.value];
      var version := resolved[norm].version;
      var key := PinKey(norm, version);
      if key !in visited {
        visited := visited + {key};
        var required := pypi.GetRequiresDist(norm, version);
        if required.Some? {
          var deps := required.value;
          ghost var before := agenda;
          for i := 0 to |deps|
            invariant DemandAll(agenda, deps[i..]) == DemandAll(before, deps)
          {
            assert deps[i..][1..] == deps[i + 1..];
            agenda := Demand(agenda, deps[i]);
          }
        }
      } else {
        assert visited == visited + {key};
      }
      return None, resolved, agenda, visited;
    }
  }

  // ----- classification ----------------------------------------------------

  datatype Buckets = Buckets(rhoaiWheel: map<string, Pin>, pypiSdist: map<string, Pin>, pypiWheel: map<string, Pin>)

  predicate SdistUsable(pin: Pin) {
    pin.origin.FromPypi? && pin.origin.info.hasSdist
  }

  /** Each package lands in exactly one bucket, unchanged, by its source, the wheel-only list and its sdist. */
  ghost predicate Classified(resolved: map<string, Pin>, wheelOnly: set<string>, b: Buckets) {
    && b.rhoaiWheel.Keys + b.pypiSdist.Keys + b.pypiWheel.Keys == resolved.Keys
    && b.rhoaiWheel.Keys !! b.pypiSdist.Keys !! b.pypiWheel.Keys
    && (forall n <- resolved :: n in b.rhoaiWheel <==> resolved[n].origin.FromRhoai?)
    && (forall n <- resolved ::
          n in b.pypiWheel <==> resolved[n].origin.FromPypi? && (n in wheelOnly || !SdistUsable(resolved[n])))
    && (forall n <- b.rhoaiWheel :: b.rhoaiWheel[n] == resolved[n])
    && (forall n <- b.pypiSdist :: b.pypiSdist[n] == resolved[n])
    && (forall n <- b.pypiWheel :: b.pypiWheel[n] == resolved[n])
  }

  datatype Bucket = RhoaiWheel | PypiSdist | PypiWheel

  function BucketOf(name: string, pin: Pin, wheelOnly: set<string>): Bucket {
    if pin.origin.FromRhoai? then RhoaiWheel
    else if name !in wheelOnly && pin.origin.info.hasSdist then PypiSdist
    else PypiWheel
  }

  /** The packages outside `todo` that belong in one bucket. */
  function Filed(resolved: map<string, Pin>, todo: set<string>, wheelOnly: set<string>, bucket: Bucket): map<string,
    Pin> {
    map n | n in resolved && n !in todo && BucketOf(n, resolved[n], wheelOnly) == bucket :: resolved[n]
  }

  lemma FiledOneMore(resolved: map<string, Pin>, todo: set<string>, wheelOnly: set<string>, name: string,
                     bucket: Bucket)
    requires name in todo && name in resolved
    ensures Filed(resolved, todo - {name}, wheelOnly, bucket)
         == if BucketOf(name, resolved[name], wheelOnly) == bucket
            then Filed(resolved, todo, wheelOnly, bucket)[name := resolved[name]]
            else Filed(resolved, todo, wheelOnly, bucket)
  {
  }

  function FiledBuckets(resolved: map<string, Pin>, todo: set<string>, wheelOnly: set<string>): Buckets {
    Buckets(Filed(resolved, todo, wheelOnly, RhoaiWheel), Filed(resolved, todo, wheelOnly, PypiSdist),
            Filed(resolved, todo, wheelOnly, PypiWheel))
  }

  lemma FilingClassifies(resolved: map<string, Pin>, wheelOnly: set<string>)
    ensures FiledBuckets(resolved, resolved.Keys, wheelOnly) == Buckets(map[], map[], map[])
    ensures Classified(resolved, wheelOnly, FiledBuckets(resolved, {}, wheelOnly))
  {
  }

  function NormalizedNames(names: set<string>): set<string> {
    set p <- names :: NormalizeName(p)
  }

  /** The names `resolve` returns are normalized, so no two of them share a bucket key. */
  method ClassifyPackages(resolved: map<string, Pin>, wheelOnly: set<string>) returns (b: Buckets)
    requires forall n <- resolved :: Normalized(n)
    ensures Classified(resolved, NormalizedNames(wheelOnly), b)
  {
    hide NormalizeName, Classified, Filed, NormalizedNames;
    var listed := NormalizedNames(wheelOnly);
    FilingClassifies(resolved, listed);
    b := Buckets(map[], map[], map[]);
    var todo := resolved.Keys;
    while todo != {}
      invariant todo <= resolved.Keys && b == FiledBuckets(resolved, todo, listed)
      decreases todo
    {
      var name :| name in todo;
      var norm, info := NormalizeName(name), resolved[name];
      FiledOneMore(resolved, todo, listed, name, RhoaiWheel);
      FiledOneMore(resolved, todo, listed, name, PypiSdist);
      FiledOneMore(resolved, todo, listed, name, PypiWheel);
      if info.origin.FromRhoai? {
        b := b.(rhoaiWheel := b.rhoaiWheel[norm := info]);
      } else if norm in listed {
        b := b.(pypiWheel := b.pypiWheel[norm := info]);
      } else if info.origin.info.hasSdist {
        b := b.(pypiSdist := b.pypiSdist[norm := info]);
      } else {
        b := b.(pypiWheel := b.pypiWheel[norm := info]);
      }
      todo := todo - {name};
    }
  }

  /**
   * From requirements to buckets: a resolved package is filed as an RHOAI wheel exactly when RHOAI has a
   * version for it, and as a PyPI wheel exactly when listed as wheel-only or PyPI lists no sdist of it.
   */
  lemma BucketsReflectTheIndexes(w: World, directs: seq<Dep>, s: State, wheelOnly: set<string>, b: Buckets)
    requires Sound(w, directs, s) && Classified(s.resolved, wheelOnly, b)
    ensures forall n <- s.resolved ::
              && (n in b.rhoaiWheel
                  <==> exists v <- RhoaiNames(w, n) :: Meets(v, s.agenda.constraints[n]))
              && (n in b.rhoaiWheel ==> s.resolved[n].origin.platforms != map[])
              && (n in b.pypiSdist
                  <==> n !in b.rhoaiWheel && n !in wheelOnly && n in w.pypi.pages
                       && exists e <- w.pypi.pages[n] :: e.version == s.resolved[n].version && !e.isWheel)
  {
    hide Satisfies, NotAbove, FileWheels, FileEntries, EntryFits;
    forall n <- s.resolved
      ensures s.resolved[n].origin.FromRhoai? ==> s.resolved[n].origin.platforms != map[]
      ensures s.resolved[n].origin.FromPypi? ==> n in w.pypi.pages
      ensures s.resolved[n].origin.FromPypi? ==>
                (SdistUsable(s.resolved[n])
                 <==> exists e <- w.pypi.pages[n] :: e.version == s.resolved[n].version && !e.isWheel)
    {
      assert Optimal(w, n, s.resolved[n], s.agenda.constraints[n]);
      if s.resolved[n].origin.FromRhoai? {
        RhoaiVersionsAreTheCompatible(w.rhoai, n);
      } else {
        PypiOfNamed(w.pypi, n);
        PypiVersionsAreTheListed(w.pypi, n);
      }
    }
  }
}
