/** What a loaded package holds: which wheel under which key, in which order, and what PyPI tells of its files. */
module IndexLaws {
  import opened Wrappers
  import opened Versions
  import opened Packages
  import opened Indexes
  import opened WheelLaws

  // ----- what a loaded package holds ---------------------------------------

  /** The key a wheel is filed under: `any`, or the Linux tag of the first architecture it names. */
  ghost predicate FiledUnder(tag: string, platforms: seq<string>, key: string) {
    if PlatformFree(tag) then key == "any"
    else
      exists i :: 0 <= i < |platforms| && key == "linux_" + platforms[i] && NamesPlatform(tag, platforms[i])
                  && forall j :: 0 <= j < i ==> !NamesPlatform(tag, platforms[j])
  }

  lemma {:induction false} FirstMatch(tag: string, platforms: seq<string>)
    requires !PlatformFree(tag)
    ensures match MatchArch(tag, TargetsOf(platforms))
            case None => forall i :: 0 <= i < |platforms| ==> !NamesPlatform(tag, platforms[i])
            case Some(key) => FiledUnder(tag, platforms, key)
  {
    hide MatchesTarget, NamesPlatform;
    if platforms != [] {
      PlatformExactly(tag, platforms[0]);
      FirstMatch(tag, platforms[1..]);
      assert TargetsOf(platforms)[0] == "linux_" + platforms[0];
      assert TargetsOf(platforms)[1..] == TargetsOf(platforms[1..]);
      assert forall i :: 0 < i < |platforms| ==> platforms[i] == platforms[1..][i - 1];
      var found := MatchArch(tag, TargetsOf(platforms[1..]));
      if !NamesPlatform(tag, platforms[0]) && found.Some? {
        var k :| 0 <= k < |platforms[1..]| && found.value == "linux_" + platforms[1..][k]
                 && NamesPlatform(tag, platforms[1..][k])
                 && forall j :: 0 <= j < k ==> !NamesPlatform(tag, platforms[1..][j]);
        assert platforms[k + 1] == platforms[1..][k];
      }
    }
  }

  lemma KeyIsUnique(tag: string, platforms: seq<string>, a: string, b: string)
    requires FiledUnder(tag, platforms, a) && FiledUnder(tag, platforms, b)
    ensures a == b
  {
    hide NamesPlatform;
  }

  /** A fitting wheel has exactly one key, the one it is filed under. */
  lemma MatchIsKey(site: RhoaiSite, e: Entry, key: string)
    requires EntryFits(site, e) == Ok(true)
    ensures MatchArch(e.platformTag, TargetsOf(site.platforms)) == Some(key)
       <==> FiledUnder(e.platformTag, site.platforms, key)
  {
    hide EntryFits, MatchesTarget, NamesPlatform, TargetsOf;
    FittingWheelHasArch(site, e);
    if !PlatformFree(e.platformTag) {
      FirstMatch(e.platformTag, site.platforms);
      var found := MatchArch(e.platformTag, TargetsOf(site.platforms)).value;
      if FiledUnder(e.platformTag, site.platforms, key) {
        KeyIsUnique(e.platformTag, site.platforms, key, found);
      }
    } else {
      AnyIsAny(e.platformTag, TargetsOf(site.platforms));
    }
  }

  lemma AnyIsAny(tag: string, targets: seq<string>)
    requires PlatformFree(tag)
    ensures MatchArch(tag, targets) == Some("any")
  {
  }

  /** The entry is a fitting wheel of that version, filed under that key. */
  ghost predicate Files(site: RhoaiSite, e: Entry, version: string, key: string) {
    EntryFits(site, e) == Ok(true) && e.version == version && FiledUnder(e.platformTag, site.platforms, key)
  }

  /** The last entry that is filed there. */
  ghost predicate LastFiled(site: RhoaiSite, entries: seq<Entry>, version: string, key: string, k: nat) {
    k < |entries| && Files(site, entries[k], version, key)
    && forall j :: k < j < |entries| ==> !Files(site, entries[j], version, key)
  }

  function Look(d: Dict<Platforms>, version: string, key: string): Option<Wheel> {
    if version in d.items && key in d.items[version] then Some(d.items[version][key]) else None
  }

  lemma FileWheelLooks(site: RhoaiSite, d: Dict<Platforms>, e: Entry, version: string, key: string)
    requires EntryFits(site, e) == Ok(true)
    ensures Look(FileWheel(d, e, TargetsOf(site.platforms)), version, key)
         == if Files(site, e, version, key) then Some(Wheel(e.filename, e.sha256)) else Look(d, version, key)
  {
    hide EntryFits, MatchArch, FiledUnder;
    FittingWheelHasArch(site, e);
    MatchIsKey(site, e, key);
  }

  lemma {:induction false} FilingLooks(site: RhoaiSite, d: Dict<Platforms>, entries: seq<Entry>, version: string,
                                       key: string)
    requires FileWheels(site, d, entries).Ok?
    ensures var r := FileWheels(site, d, entries).value;
            && (forall k: nat :: LastFiled(site, entries, version, key, k) ==>
                  Look(r, version, key) == Some(Wheel(entries[k].filename, entries[k].sha256)))
            && ((forall e <- entries :: !Files(site, e, version, key)) ==>
                  Look(r, version, key) == Look(d, version, key))
    decreases entries
  {
    hide EntryFits, Files, Look, FileWheel;
    if entries != [] {
      var e, rest := entries[0], entries[1..];
      var next := if EntryFits(site, e).value then FileWheel(d, e, TargetsOf(site.platforms)) else d;
      FilingLooks(site, next, rest, version, key);
      FiledOrNot(site, d, e, version, key);
      assert forall j :: 0 < j < |entries| ==> entries[j] == rest[j - 1];
      forall k: nat | LastFiled(site, entries, version, key, k)
        ensures Look(FileWheels(site, d, entries).value, version, key)
             == Some(Wheel(entries[k].filename, entries[k].sha256))
      {
        if k > 0 {
          assert LastFiled(site, rest, version, key, k - 1);
        } else {
          assert forall x <- rest :: !Files(site, x, version, key);
        }
      }
    }
  }

  lemma FiledOrNot(site: RhoaiSite, d: Dict<Platforms>, e: Entry, version: string, key: string)
    requires EntryFits(site, e).Ok?
    ensures var next := if EntryFits(site, e).value then FileWheel(d, e, TargetsOf(site.platforms)) else d;
            Look(next, version, key)
            == if Files(site, e, version, key) then Some(Wheel(e.filename, e.sha256)) else Look(d, version, key)
  {
    hide EntryFits, FileWheel, Look, FiledUnder;
    if EntryFits(site, e).value {
      FileWheelLooks(site, d, e, version, key);
    }
  }

  /** A wheel is there under a version and a key exactly if some entry is filed there, and then it is the last one. */
  lemma RhoaiHoldsTheLast(site: RhoaiSite, norm: string, version: string, key: string)
    requires RhoaiVersions(site, norm).Ok? && norm in site.known && norm in site.pages
    ensures var d, page := RhoaiVersions(site, norm).value, site.pages[norm];
            && (Look(d, version, key).Some? <==> exists e <- page :: Files(site, e, version, key))
            && forall k: nat :: LastFiled(site, page, version, key, k) ==>
                 Look(d, version, key) == Some(Wheel(page[k].filename, page[k].sha256))
  {
    hide EntryFits, Files, FileWheels;
    FilingLooks(site, EmptyDict(), site.pages[norm], version, key);
    if e :| e in site.pages[norm] && Files(site, e, version, key) {
      var k := LastOf(site, site.pages[norm], version, key);
    }
  }

  lemma {:induction false} LastOf(site: RhoaiSite, entries: seq<Entry>, version: string, key: string) returns (k: nat)
    requires exists e <- entries :: Files(site, e, version, key)
    ensures LastFiled(site, entries, version, key, k)
  {
    hide Files;
    var n := |entries| - 1;
    if Files(site, entries[n], version, key) {
      k := n;
    } else {
      assert entries == entries[..n] + [entries[n]];
      k := LastOf(site, entries[..n], version, key);
    }
  }

  // ----- the order of the versions -----------------------------------------

  /** The names without repetition, each where it first stands, leaving out what was seen before. */
  function Firsts(names: seq<string>, seen: set<string>): seq<string>
    decreases names
  {
    if names == [] then []
    else if names[0] in seen then Firsts(names[1..], seen)
    else [names[0]] + Firsts(names[1..], seen + {names[0]})
  }

  /** The versions of the fitting wheels, in the order of the page. */
  function FittingVersions(site: RhoaiSite, entries: seq<Entry>): seq<string> {
    if entries == [] then []
    else (if EntryFits(site, entries[0]) == Ok(true) then [entries[0].version] else [])
         + FittingVersions(site, entries[1..])
  }

  function AllVersions(entries: seq<Entry>): (r: seq<string>)
    ensures |r| == |entries|
  {
    seq(|entries|, i requires 0 <= i < |entries| => entries[i].version)
  }

  lemma FirstsOfCons(name: string, names: seq<string>, seen: set<string>)
    ensures Firsts([name] + names, seen)
         == if name in seen then Firsts(names, seen) else [name] + Firsts(names, seen + {name})
  {
    assert ([name] + names)[1..] == names;
  }

  lemma FirstsThen(order: seq<string>, name: string, names: seq<string>, seen: set<string>)
    ensures order + Firsts([name] + names, seen)
         == (if name in seen then order else order + [name]) + Firsts(names, seen + {name})
  {
    hide Firsts;
    FirstsOfCons(name, names, seen);
    assert name in seen ==> seen + {name} == seen;
    assert order + ([name] + Firsts(names, seen + {name})) == (order + [name]) + Firsts(names, seen + {name});
  }

  lemma {:induction false} FilingOrder(site: RhoaiSite, d: Dict<Platforms>, entries: seq<Entry>)
    requires FileWheels(site, d, entries).Ok?
    ensures FileWheels(site, d, entries).value.order
         == d.order + Firsts(FittingVersions(site, entries), d.items.Keys)
    decreases entries
  {
    hide EntryFits, FileWheel, Firsts;
    if entries == [] {
      NoFirsts(d.items.Keys);
    } else {
      var e, rest := entries[0], entries[1..];
      if EntryFits(site, e).value {
        FilingOrder(site, FileWheel(d, e, TargetsOf(site.platforms)), rest);
        FirstsThen(d.order, e.version, FittingVersions(site, rest), d.items.Keys);
        FiledOrder(d, e, TargetsOf(site.platforms));
      } else {
        FilingOrder(site, d, rest);
        assert [] + FittingVersions(site, rest) == FittingVersions(site, rest);
      }
    }
  }

  lemma NoFirsts(seen: set<string>)
    ensures Firsts([], seen) == []
  {
  }

  lemma FiledOrder(d: Dict<Platforms>, e: Entry, targets: seq<string>)
    ensures FileWheel(d, e, targets).order == if e.version in d.items then d.order else d.order + [e.version]
  {
    hide MatchArch;
  }

  /** RHOAI versions are looked through in the order in which fitting wheels bring them. */
  lemma RhoaiOrder(site: RhoaiSite, norm: string)
    requires RhoaiVersions(site, norm).Ok? && norm in site.known && norm in site.pages
    ensures RhoaiVersions(site, norm).value.order == Firsts(FittingVersions(site, site.pages[norm]), {})
  {
    hide EntryFits, Firsts;
    var empty: Dict<Platforms> := EmptyDict();
    assert empty.items.Keys == {} && empty.order == [];
    FilingOrder(site, empty, site.pages[norm]);
    var order := Firsts(FittingVersions(site, site.pages[norm]), {});
    assert [] + order == order;
  }

  // ----- PyPI --------------------------------------------------------------

  /** The hashes of the wheels of a version, or of its other files, where they are given, in the order of the page. */
  function Hashes(entries: seq<Entry>, version: string, wheels: bool): seq<string> {
    if entries == [] then []
    else
      var e := entries[0];
      (if e.version == version && e.isWheel == wheels && e.sha256 != "" then [e.sha256] else [])
      + Hashes(entries[1..], version, wheels)
  }

  /** The names of the wheels of a version, in the order of the page. */
  function WheelNames(entries: seq<Entry>, version: string): seq<string> {
    if entries == [] then []
    else
      var e := entries[0];
      (if e.version == version && e.isWheel then [e.filename] else []) + WheelNames(entries[1..], version)
  }

  function InfoAt(d: Dict<PypiInfo>, version: string): PypiInfo {
    if version in d.items then d.items[version] else NO_FILES
  }

  /** The three lists after some entries, from those before. */
  predicate Told(before: PypiInfo, after: PypiInfo, entries: seq<Entry>, version: string) {
    && after.sdistHashes == before.sdistHashes + Hashes(entries, version, false)
    && after.wheelHashes == before.wheelHashes + Hashes(entries, version, true)
    && after.wheelFiles == before.wheelFiles + WheelNames(entries, version)
  }

  lemma ToldThen(a: PypiInfo, b: PypiInfo, c: PypiInfo, e: Entry, rest: seq<Entry>, version: string)
    requires Told(a, b, [e], version) && Told(b, c, rest, version)
    ensures Told(a, c, [e] + rest, version)
  {
    FileStep([e] + rest, version);
    FileStep([e], version);
    assert ([e] + rest)[1..] == rest && [e][1..] == [];
    NoFiles(version);
    hide Hashes, WheelNames;
  }

  lemma NoFiles(version: string)
    ensures Hashes([], version, false) == [] && Hashes([], version, true) == [] && WheelNames([], version) == []
  {
  }

  lemma {:induction false} FilesRead(d: Dict<PypiInfo>, entries: seq<Entry>, version: string)
    ensures Told(InfoAt(d, version), InfoAt(FileEntries(d, entries), version), entries, version)
    decreases entries
  {
    hide Told, InfoAt;
    if entries == [] {
      ToldNothing(InfoAt(d, version), version);
    } else {
      var next := FileEntry(d, entries[0]);
      FilesRead(next, entries[1..], version);
      FileRead(d, entries[0], version);
      ToldThen(InfoAt(d, version), InfoAt(next, version), InfoAt(FileEntries(d, entries), version), entries[0],
               entries[1..], version);
      assert [entries[0]] + entries[1..] == entries;
    }
  }

  lemma ToldNothing(info: PypiInfo, version: string)
    ensures Told(info, info, [], version)
  {
    NoFiles(version);
  }

  lemma FileStep(entries: seq<Entry>, version: string)
    requires entries != []
    ensures var e, rest := entries[0], entries[1..];
            && (forall wheels :: Hashes(entries, version, wheels)
                  == (if e.version == version && e.isWheel == wheels && e.sha256 != "" then [e.sha256] else [])
                     + Hashes(rest, version, wheels))
            && WheelNames(entries, version)
               == (if e.version == version && e.isWheel then [e.filename] else []) + WheelNames(rest, version)
  {
  }

  lemma FileRead(d: Dict<PypiInfo>, e: Entry, version: string)
    ensures Told(InfoAt(d, version), InfoAt(FileEntry(d, e), version), [e], version)
  {
    FileStep([e], version);
    NoFiles(version);
    assert [e][1..] == [];
    hide Hashes, WheelNames;
  }

  lemma {:induction false} FilesOrder(d: Dict<PypiInfo>, entries: seq<Entry>)
    ensures FileEntries(d, entries).order == d.order + Firsts(AllVersions(entries), d.items.Keys)
    decreases entries
  {
    hide AddFile, Firsts;
    if entries == [] {
      NoFirsts(d.items.Keys);
    } else {
      var e, rest := entries[0], entries[1..];
      FilesOrder(FileEntry(d, e), rest);
      assert FileEntry(d, e).items.Keys == d.items.Keys + {e.version};
      assert FileEntry(d, e).order == if e.version in d.items then d.order else d.order + [e.version];
      assert AllVersions(entries) == [e.version] + AllVersions(rest);
      FirstsThen(d.order, e.version, AllVersions(rest), d.items.Keys);
    }
  }

  /** PyPI tells of a version the hashes of its files and the names of its wheels. */
  lemma PypiTellsTheFiles(site: PypiSite, norm: string, version: string)
    requires norm in site.pages && version in PypiVersions(site, norm).value.items
    ensures var info, page := PypiVersions(site, norm).value.items[version], site.pages[norm];
            && info.sdistHashes == Hashes(page, version, false) && info.wheelHashes == Hashes(page, version, true)
            && info.wheelFiles == WheelNames(page, version)
  {
    hide FileEntries, Hashes, WheelNames;
    var empty: Dict<PypiInfo> := EmptyDict();
    var page := site.pages[norm];
    FilesRead(empty, page, version);
    var sdists, wheels, names := Hashes(page, version, false), Hashes(page, version, true), WheelNames(page, version);
    assert [] + sdists == sdists && [] + wheels == wheels && [] + names == names;
  }

  /** PyPI versions are looked through in the order of the page. */
  lemma PypiOrder(site: PypiSite, norm: string)
    requires norm in site.pages
    ensures PypiVersions(site, norm).value.order == Firsts(AllVersions(site.pages[norm]), {})
  {
    hide FileEntries, Firsts;
    var empty: Dict<PypiInfo> := EmptyDict();
    assert empty.items.Keys == {} && empty.order == [];
    FilesOrder(empty, site.pages[norm]);
    var order := Firsts(AllVersions(site.pages[norm]), {});
    assert [] + order == order;
  }

  // ----- the best of equals ------------------------------------------------

  lemma {:induction false} MaxIsFirst(names: seq<string>, best: string, v: Version, rest: seq<string>)
    requires ParseVersion(best) == Ok(v) && MaxFrom(best, v, rest).Ok?
    requires names == [best] + rest
    ensures exists k :: 0 <= k < |names| && names[k] == MaxFrom(best, v, rest).value
              && forall j :: 0 <= j < k ==> !NotAbove(names[k], names[j])
    decreases rest
  {
    hide ParseVersion;
    if rest == [] {
      assert names[0] == best;
    } else {
      var w := ParseVersion(rest[0]).value;
      if v.Less(w) {
        MaxIsFirst(rest, rest[0], w, rest[1..]);
        MaxFromIsHighest(rest[0], w, rest[1..]);
        var k :| 0 <= k < |rest| && rest[k] == MaxFrom(best, v, rest).value
                 && forall j :: 0 <= j < k ==> !NotAbove(rest[k], rest[j]);
        assert names[k + 1] == rest[k];
        forall j | 0 <= j < k + 1 ensures !NotAbove(names[k + 1], names[j]) {
          if j > 0 {
            assert names[j] == rest[j - 1];
          }
        }
      } else {
        var others := [best] + rest[1..];
        MaxIsFirst(others, best, v, rest[1..]);
        MaxFromIsHighest(best, v, rest[1..]);
        var k :| 0 <= k < |others| && others[k] == MaxFrom(best, v, rest).value
                 && forall j :: 0 <= j < k ==> !NotAbove(others[k], others[j]);
        if k == 0 {
          assert names[0] == others[0];
        } else {
          assert names[k + 1] == others[k];
          forall j | 0 <= j < k + 1 ensures !NotAbove(names[k + 1], names[j]) {
            if j == 0 {
              assert names[0] == others[0];
            } else if j > 1 {
              assert names[j] == others[j - 1];
            } else {
              assert names[1] == rest[0] && !NotAbove(others[k], others[0]);
            }
          }
        }
      }
    }
  }

  lemma {:induction false} CandidatePlace(names: seq<string>, constraint: string, k: nat) returns (m: nat)
    requires Candidates(names, constraint).Ok? && k < |Candidates(names, constraint).value|
    ensures m < |names| && names[m] == Candidates(names, constraint).value[k]
    ensures forall j :: 0 <= j < m && Meets(names[j], constraint) ==>
              names[j] in Candidates(names, constraint).value[..k]
  {
    hide Satisfies;
    var all, rest := Candidates(names, constraint).value, Candidates(names[1..], constraint).value;
    if Meets(names[0], constraint) {
      assert all == [names[0]] + rest;
      if k == 0 {
        m := 0;
      } else {
        m := CandidatePlace(names[1..], constraint, k - 1);
        m := m + 1;
        assert all[..k] == [names[0]] + rest[..k - 1];
      }
    } else {
      assert all == rest;
      m := CandidatePlace(names[1..], constraint, k);
      m := m + 1;
    }
  }

  /** Among equal versions the one listed first is found: every satisfying name before it is strictly lower. */
  lemma BestOfIsFirst(names: seq<string>, constraint: string) returns (k: nat)
    requires BestOf(names, constraint).Ok? && BestOf(names, constraint).value.Some?
    ensures k < |names| && BestOf(names, constraint).value == Some(names[k])
    ensures forall j :: 0 <= j < k && Meets(names[j], constraint) ==> !NotAbove(names[k], names[j])
  {
    hide Satisfies, ParseVersion, Candidates, NotAbove, MaxFrom;
    var all := Candidates(names, constraint).value;
    MaxIsFirst(all, all[0], ParseVersion(all[0]).value, all[1..]);
    var place :| 0 <= place < |all| && Some(all[place]) == BestOf(names, constraint).value
                 && forall j :: 0 <= j < place ==> !NotAbove(all[place], all[j]);
    k := CandidatePlace(names, constraint, place);
  }
}
