/** The RHOAI and PyPI indexes: what a lookup means, and the caching clients that perform it. */
module Indexes {
  import opened Wrappers
  import opened Versions
  import opened Packages

  datatype ResolveError =
    | Raised(cause: PyError)
    | FetchFailed(name: string)
    | Unresolvable(name: string, constraint: string)
    | Conflict(name: string, version: string, constraint: string)

  // ----- choosing a version ------------------------------------------------

  /** The names that satisfy the constraint, in order; the first check that raises ends it. */
  function Candidates(names: seq<string>, constraint: string): Result<seq<string>, PyError> {
    if names == [] then Ok([])
    else
      var keep :- Satisfies(names[0], constraint);
      var rest :- Candidates(names[1..], constraint);
      Ok(if keep then [names[0]] + rest else rest)
  }

  /** Python's `max`: the first of the highest, every element parsed. */
  function MaxFrom(best: string, bestVersion: Version, rest: seq<string>): Result<string, PyError>
    decreases rest
  {
    if rest == [] then Ok(best)
    else
      var v :- ParseVersion(rest[0]);
      if bestVersion.Less(v) then MaxFrom(rest[0], v, rest[1..]) else MaxFrom(best, bestVersion, rest[1..])
  }

  function BestOf(names: seq<string>, constraint: string): Result<Option<string>, PyError> {
    var candidates :- Candidates(names, constraint);
    if candidates == [] then Ok(None)
    else
      var v :- ParseVersion(candidates[0]);
      var best :- MaxFrom(candidates[0], v, candidates[1..]);
      Ok(Some(best))
  }

  predicate NotAbove(low: string, high: string) {
    && ParseVersion(low).Ok? && ParseVersion(high).Ok?
    && ParseVersion(low).value.AtMost(ParseVersion(high).value)
  }

  /** `best` satisfies the constraint and no satisfying name is a higher version. */
  ghost predicate Highest(best: string, names: seq<string>, constraint: string) {
    && best in names && Meets(best, constraint)
    && forall n <- names :: Meets(n, constraint) ==> NotAbove(n, best)
  }

  ghost predicate NoneMeets(names: seq<string>, constraint: string) {
    forall n <- names :: !Meets(n, constraint)
  }

  lemma {:induction false} CandidatesAreTheMeeting(names: seq<string>, constraint: string)
    requires Candidates(names, constraint).Ok?
    ensures forall n :: n in Candidates(names, constraint).value <==> n in names && Meets(n, constraint)
  {
    hide Satisfies;
    if names != [] {
      CandidatesAreTheMeeting(names[1..], constraint);
      assert forall n :: n in names <==> n == names[0] || n in names[1..];
    }
  }

  lemma {:induction false} MaxFromIsHighest(best: string, v: Version, rest: seq<string>)
    requires ParseVersion(best) == Ok(v) && MaxFrom(best, v, rest).Ok?
    ensures var m := MaxFrom(best, v, rest).value;
            (m == best || m in rest) && NotAbove(best, m) && forall n <- rest :: NotAbove(n, m)
    decreases rest
  {
    hide ParseVersion;
    if rest != [] {
      var w := ParseVersion(rest[0]).value;
      if v.Less(w) {
        MaxFromIsHighest(rest[0], w, rest[1..]);
      } else {
        MaxFromIsHighest(best, v, rest[1..]);
      }
      assert forall n <- rest :: n == rest[0] || n in rest[1..];
    }
  }

  /** A lookup answers with a highest satisfying version, or with nothing exactly when there is none. */
  lemma BestOfIsHighest(names: seq<string>, constraint: string)
    requires BestOf(names, constraint).Ok?
    ensures match BestOf(names, constraint).value
            case Some(best) => Highest(best, names, constraint)
            case None => NoneMeets(names, constraint)
  {
    hide Satisfies, ParseVersion;
    CandidatesAreTheMeeting(names, constraint);
    var candidates := Candidates(names, constraint).value;
    if candidates != [] {
      MaxFromIsHighest(candidates[0], ParseVersion(candidates[0]).value, candidates[1..]);
      assert forall n <- candidates :: n == candidates[0] || n in candidates[1..];
      assert candidates[0] in candidates;
    }
  }

  // ----- the RHOAI index ---------------------------------------------------

  /** What the RHOAI server offers this target: its listing, its package pages, the target itself. */
  datatype RhoaiSite = RhoaiSite(known: set<string>, pages: map<string, seq<Entry>>,
                                 python: string, platforms: seq<string>)

  function TargetsOf(platforms: seq<string>): seq<string> {
    seq(|platforms|, i requires 0 <= i < |platforms| => "linux_" + platforms[i])
  }

  function EntryFits(site: RhoaiSite, e: Entry): Result<bool, PyError> {
    if !e.isWheel then Ok(false)
    else IsWheelCompatible(e.pythonTag, e.platformTag, site.python, TargetsOf(site.platforms), e.abiTag)
  }

  /** One compatible wheel is filed under its version and the first target it matches. */
  function FileWheel(d: Dict<Platforms>, e: Entry, targets: seq<string>): (r: Dict<Platforms>)
    ensures d.Valid() ==> r.Valid()
    ensures r.items.Keys == d.items.Keys + {e.version}
  {
    var known := if e.version in d.items then d else d.Put(e.version, map[]);
    match MatchArch(e.platformTag, targets)
    case None => known
    case Some(arch) =>
      if arch == "" then known
      else known.Put(e.version, known.items[e.version][arch := Wheel(e.filename, e.sha256)])
  }

  function FileWheels(site: RhoaiSite, d: Dict<Platforms>, entries: seq<Entry>): (r: Result<Dict<Platforms>, PyError>)
    ensures d.Valid() && r.Ok? ==> r.value.Valid()
    decreases entries
  {
    if entries == [] then Ok(d)
    else
      var fits :- EntryFits(site, entries[0]);
      FileWheels(site, if fits then FileWheel(d, entries[0], TargetsOf(site.platforms)) else d, entries[1..])
  }

  /** The compatible wheels of a package; unlisted and unreachable packages have none. */
  function RhoaiVersions(site: RhoaiSite, norm: string): Result<Dict<Platforms>, PyError> {
    if norm !in site.known || norm !in site.pages then Ok(EmptyDict())
    else FileWheels(site, EmptyDict(), site.pages[norm])
  }

  function RhoaiBest(site: RhoaiSite, norm: string, constraint: string): Result<Option<(string, Platforms)>, PyError> {
    var d :- RhoaiVersions(site, norm);
    var best :- BestOf(d.order, constraint);
    match best
    case None => Ok(None)
    case Some(v) => Ok(Some((v, if v in d.items then d.items[v] else map[])))
  }

  predicate Offers(site: RhoaiSite, entries: seq<Entry>, version: string) {
    exists e <- entries :: e.version == version && EntryFits(site, e) == Ok(true)
  }

  /** A wheel judged compatible always has an architecture to be filed under. */
  lemma FittingWheelHasArch(site: RhoaiSite, e: Entry)
    requires EntryFits(site, e) == Ok(true)
    ensures var arch := MatchArch(e.platformTag, TargetsOf(site.platforms));
            arch.Some? && arch.value != ""
  {
    var targets := TargetsOf(site.platforms);
    assert forall t <- targets :: |t| >= 6;
  }

  predicate AllNonEmpty(d: Dict<Platforms>) {
    forall v <- d.items :: d.items[v] != map[]
  }

  lemma {:induction false} FiledVersions(site: RhoaiSite, d: Dict<Platforms>, entries: seq<Entry>)
    requires FileWheels(site, d, entries).Ok? && d.Valid() && AllNonEmpty(d)
    ensures var r := FileWheels(site, d, entries).value;
            && AllNonEmpty(r)
            && forall v :: v in r.items <==> v in d.items || Offers(site, entries, v)
    decreases entries
  {
    hide EntryFits, Offers, AllNonEmpty, FileWheel;
    if entries == [] {
      NothingOffered(site);
    } else {
      var e := entries[0];
      var targets := TargetsOf(site.platforms);
      OffersCons(site, e, entries[1..]);
      assert [e] + entries[1..] == entries;
      if EntryFits(site, e).value {
        FiledOne(site, d, e);
        FiledVersions(site, FileWheel(d, e, targets), entries[1..]);
      } else {
        FiledVersions(site, d, entries[1..]);
      }
    }
  }

  lemma FiledOne(site: RhoaiSite, d: Dict<Platforms>, e: Entry)
    requires EntryFits(site, e) == Ok(true) && d.Valid() && AllNonEmpty(d)
    ensures AllNonEmpty(FileWheel(d, e, TargetsOf(site.platforms)))
  {
    hide EntryFits, MatchArch;
    FittingWheelHasArch(site, e);
    var targets := TargetsOf(site.platforms);
    var filed := FileWheel(d, e, targets);
    assert filed.items[e.version][MatchArch(e.platformTag, targets).value] == Wheel(e.filename, e.sha256);
  }

  lemma NothingOffered(site: RhoaiSite)
    ensures forall v :: !Offers(site, [], v)
  {
  }

  lemma OffersCons(site: RhoaiSite, e: Entry, rest: seq<Entry>)
    ensures forall v :: Offers(site, [e] + rest, v)
                   <==> (e.version == v && EntryFits(site, e) == Ok(true)) || Offers(site, rest, v)
  {
    hide EntryFits;
    assert forall x :: x in [e] + rest <==> x == e || x in rest;
  }

  /** A version is offered exactly when some compatible wheel carries it, and then on some platform. */
  lemma RhoaiVersionsAreTheCompatible(site: RhoaiSite, norm: string)
    requires RhoaiVersions(site, norm).Ok?
    ensures var d := RhoaiVersions(site, norm).value;
            && d.Valid() && AllNonEmpty(d)
            && forall v :: v in d.order
                      <==> norm in site.known && norm in site.pages && Offers(site, site.pages[norm], v)
  {
    hide IsWheelCompatible;
    if norm in site.known && norm in site.pages {
      FiledVersions(site, EmptyDict(), site.pages[norm]);
    }
  }

  class RhoaiIndex {
    const site: RhoaiSite
    var packages: map<string, Dict<Platforms>>

    /** Every cached page is what the site serves. */
    ghost predicate Valid()
      reads this
    {
      forall n <- packages :: n in site.known && RhoaiVersions(site, n) == Ok(packages[n])
    }

    constructor (site: RhoaiSite)
      ensures Valid() && this.site == site
    {
      this.site := site;
      packages := map[];
    }

    method EnsureLoaded(name: string) returns (r: Result<(), PyError>)
      requires Valid()
      modifies this`packages
      ensures Valid()
      ensures var norm := NormalizeName(name);
              match RhoaiVersions(site, norm)
              case Ok(d) =>
                r == Ok(()) && packages == if d.items == map[] then old(packages) else old(packages)[norm := d]
              case Err(e) => r == Err(e) && packages == old(packages)
    {
      hide IsWheelCompatible;
      var norm := NormalizeName(name);
      if norm in packages || norm !in site.known || norm !in site.pages {
        return Ok(());
      }
      var targets := TargetsOf(site.platforms);
      var entries := site.pages[norm];
      var versions: Dict<Platforms> := EmptyDict();
      for i := 0 to |entries|
        invariant versions.Valid()
        invariant FileWheels(site, versions, entries[i..]) == RhoaiVersions(site, norm)
      {
        var entry := entries[i];
        assert entries[i..][1..] == entries[i + 1..];
        if entry.isWheel {
          var fits := IsWheelCompatible(entry.pythonTag, entry.platformTag, site.python, targets, entry.abiTag);
          if fits.Err? {
            return Err(fits.error);
          }
          if fits.value {
            versions := FileWheel(versions, entry, targets);
          }
        }
      }
      if versions.items != map[] {
        packages := packages[norm := versions];
      }
      return Ok(());
    }

    /** The cached lookup returns what a lookup of the site itself would. */
    method FindBest(name: string, constraint: string) returns (r: Result<Option<(string, Platforms)>, PyError>)
      requires Valid()
      modifies this`packages
      ensures Valid()
      ensures r == RhoaiBest(site, NormalizeName(name), constraint)
    {
      hide Satisfies, ParseVersion, RhoaiVersions;
      var norm := NormalizeName(name);
      NormalizeIsIdempotent(name);
      RhoaiEmptyHasNoOrder(site, norm);
      var loaded := EnsureLoaded(norm);
      if loaded.Err? {
        return Err(loaded.error);
      }
      if norm !in packages {
        return Ok(None);
      }
      var versions := packages[norm];
      var best := BestOf(versions.order, constraint);
      if best.Err? {
        return Err(best.error);
      }
      match best.value
      case None => return Ok(None);
      case Some(v) => return Ok(Some((v, if v in versions.items then versions.items[v] else map[])));
    }
  }

  lemma RhoaiEmptyHasNoOrder(site: RhoaiSite, norm: string)
    ensures RhoaiVersions(site, norm).Ok? && RhoaiVersions(site, norm).value.items == map[]
        ==> RhoaiVersions(site, norm).value.order == []
  {
    if RhoaiVersions(site, norm).Ok? {
      var d := RhoaiVersions(site, norm).value;
      assert d.Valid();
      assert d.order != [] ==> d.order[0] in d.items;
    }
  }

  // ----- PyPI --------------------------------------------------------------

  /** What PyPI serves: package pages, and the filtered requirements of each release. */
  datatype PypiSite = PypiSite(pages: map<string, seq<Entry>>, requires_: map<(string, string), seq<(string, string)>>)

  datatype PypiInfo = PypiInfo(hasSdist: bool, sdistHashes: seq<string>,
                               wheelHashes: seq<string>, wheelFiles: seq<string>)

  const NO_FILES := PypiInfo(false, [], [], [])

  function AddFile(info: PypiInfo, e: Entry): PypiInfo {
    var hash := if e.sha256 == "" then [] else [e.sha256];
    if e.isWheel then info.(wheelHashes := info.wheelHashes + hash, wheelFiles := info.wheelFiles + [e.filename])
    else info.(hasSdist := true, sdistHashes := info.sdistHashes + hash)
  }

  function FileEntry(d: Dict<PypiInfo>, e: Entry): (r: Dict<PypiInfo>)
    ensures d.Valid() ==> r.Valid()
  {
    d.Put(e.version, AddFile(if e.version in d.items then d.items[e.version] else NO_FILES, e))
  }

  function FileEntries(d: Dict<PypiInfo>, entries: seq<Entry>): (r: Dict<PypiInfo>)
    ensures d.Valid() ==> r.Valid()
    decreases entries
  {
    if entries == [] then d else FileEntries(FileEntry(d, entries[0]), entries[1..])
  }

  function PypiVersions(site: PypiSite, norm: string): Result<Dict<PypiInfo>, ResolveError> {
    if norm in site.pages then Ok(FileEntries(EmptyDict(), site.pages[norm])) else Err(FetchFailed(norm))
  }

  function PypiBest(site: PypiSite, norm: string, constraint: string)
    : Result<Option<(string, PypiInfo)>, ResolveError>
  {
    var d :- PypiVersions(site, norm);
    match BestOf(d.order, constraint)
    case Err(e) => Err(Raised(e))
    case Ok(None) => Ok(None)
    case Ok(Some(v)) => Ok(Some((v, if v in d.items then d.items[v] else NO_FILES)))
  }

  lemma {:induction false} FiledEntries(d: Dict<PypiInfo>, entries: seq<Entry>)
    ensures var r := FileEntries(d, entries);
            && (forall v :: v in r.items <==> v in d.items || exists e <- entries :: e.version == v)
            && (forall v <- r.items ::
                  r.items[v].hasSdist
                  <==> (v in d.items && d.items[v].hasSdist) || exists e <- entries :: e.version == v && !e.isWheel)
    decreases entries
  {
    if entries != [] {
      FiledEntries(FileEntry(d, entries[0]), entries[1..]);
      assert forall x :: x in entries <==> x == entries[0] || x in entries[1..];
    }
  }

  /** PyPI versions are those of any file listed; one has an sdist exactly when a listed file is not a wheel. */
  lemma PypiVersionsAreTheListed(site: PypiSite, norm: string)
    requires norm in site.pages
    ensures var d := PypiVersions(site, norm).value;
            && d.Valid()
            && (forall v :: v in d.order <==> exists e <- site.pages[norm] :: e.version == v)
            && (forall v <- d.items ::
                  d.items[v].hasSdist <==> exists e <- site.pages[norm] :: e.version == v && !e.isWheel)
  {
    FiledEntries(EmptyDict(), site.pages[norm]);
  }

  class PypiClient {
    const site: PypiSite
    var infoCache: map<string, Dict<PypiInfo>>
    var requiresCache: map<string, seq<(string, string)>>

    /** Both caches hold what the site serves. */
    ghost predicate Valid()
      reads this
    {
      && (forall n <- infoCache :: PypiVersions(site, n) == Ok(infoCache[n]))
      && (forall n, v :: CleanName(n) && PinKey(n, v) in requiresCache ==>
            (n, v) in site.requires_ && site.requires_[(n, v)] == requiresCache[PinKey(n, v)])
    }

    constructor (site: PypiSite)
      ensures Valid() && this.site == site
    {
      this.site := site;
      infoCache, requiresCache := map[], map[];
    }

    method GetPackageInfo(name: string) returns (r: Result<Dict<PypiInfo>, ResolveError>)
      requires Valid()
      modifies this`infoCache
      ensures Valid()
      ensures r == PypiVersions(site, NormalizeName(name))
    {
      var norm := NormalizeName(name);
      if norm in infoCache {
        return Ok(infoCache[norm]);
      }
      if norm !in site.pages {
        return Err(FetchFailed(norm));
      }
      var entries := site.pages[norm];
      var info: Dict<PypiInfo> := EmptyDict();
      for i := 0 to |entries|
        invariant FileEntries(info, entries[i..]) == FileEntries(EmptyDict(), entries)
      {
        assert entries[i..][1..] == entries[i + 1..];
        info := FileEntry(info, entries[i]);
      }
      infoCache := infoCache[norm := info];
      return Ok(info);
    }

    method FindBest(name: string, constraint: string) returns (r: Result<Option<(string, PypiInfo)>, ResolveError>)
      requires Valid()
      modifies this`infoCache
      ensures Valid()
      ensures r == PypiBest(site, NormalizeName(name), constraint)
    {
      hide Satisfies, ParseVersion;
      var info := GetPackageInfo(name);
      if info.Err? {
        return Err(info.error);
      }
      var d := info.value;
      match BestOf(d.order, constraint)
      case Err(e) => return Err(Raised(e));
      case Ok(None) => return Ok(None);
      case Ok(Some(v)) => return Ok(Some((v, if v in d.items then d.items[v] else NO_FILES)));
    }

    /** `None` stands for any failure to fetch or read the metadata. */
    method GetRequiresDist(name: string, version: string) returns (r: Option<seq<(string, string)>>)
      requires Valid() && CleanName(name)
      modifies this`requiresCache
      ensures Valid()
      ensures var pin := (NormalizeName(name), version);
              r == if pin in site.requires_ then Some(site.requires_[pin]) else None
    {
      var norm := NormalizeName(name);
      NormalizeKeepsClean(name);
      var key := PinKey(norm, version);
      if key in requiresCache {
        return Some(requiresCache[key]);
      }
      if (norm, version) !in site.requires_ {
        return None;
      }
      var result := site.requires_[(norm, version)];
      requiresCache := requiresCache[key := result];
      forall n, v | CleanName(n) && PinKey(n, v) == key ensures (n, v) == (norm, version) {
        PinKeyInjective(n, v, norm, version);
      }
      return Some(result);
    }
  }
}
