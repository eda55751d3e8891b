/** The gate on a release: which differences an allowlist excuses, and when the gate opens. */
module ReleaseAllowlist {
  import opened Options
  import opened Sequences
  import opened SortedNames
  import opened FeatureManifest
  import ManifestCompatibility

  /** An allowlist entry; `tests` is absent when the entry has no list of them. */
  datatype Allowance = Allowance(id: Option<string>, tests: Option<seq<string>>)

  datatype Complaint =
    | Unmatched(id: Option<string>)
    | Untested(difference: string)
    | TestsMissing(difference: string, tests: seq<string>)

  datatype Acceptance = Acceptance(difference: Difference, tests: seq<string>)

  datatype Verdict = Verdict(unresolved: seq<Difference>, accepted: seq<Acceptance>, invalid: seq<Complaint>)

  type Allowlist = map<Option<string>, Allowance>

  /** The entries by identifier; of several with one identifier the last is kept. */
  function ById(entries: seq<Allowance>): Allowlist {
    if entries == [] then map[]
    else var last := entries[|entries| - 1]; ById(entries[..|entries| - 1])[last.id := last]
  }

  function Ids(differences: seq<Difference>): set<Option<string>> {
    set d | d in differences :: Some(d.id)
  }

  function Names(ids: set<Option<string>>): (r: set<string>)
    ensures forall name :: name in r <==> Some(name) in ids
  {
    set id | id in ids && id.Some? :: id.value
  }

  function Wrapped(names: seq<string>): seq<Complaint> {
    if names == [] then [] else Wrapped(names[..|names| - 1]) + [Unmatched(Some(names[|names| - 1]))]
  }

  /** The identifiers that match no difference, sorted; a missing one cannot be sorted among others. */
  function Leftovers(ids: set<Option<string>>): Option<seq<Complaint>> {
    if None !in ids then Some(Wrapped(Sorted(Names(ids))))
    else if ids == {None} then Some([Unmatched(None)])
    else None
  }

  predicate Excused(byId: Allowlist, paths: set<string>, d: Difference) {
    && Some(d.id) in byId
    && var tests := byId[Some(d.id)].tests;
       tests.Some? && tests.value != [] && Elements(tests.value) <= paths
  }

  function IsExcused(byId: Allowlist, paths: set<string>): Difference -> bool {
    d => Excused(byId, paths, d)
  }

  function IsRefused(byId: Allowlist, paths: set<string>): Difference -> bool {
    d => !Excused(byId, paths, d)
  }

  function AcceptanceOf(byId: Allowlist, paths: set<string>, d: Difference): (r: Acceptance)
    ensures r.difference == d
  {
    Acceptance(d, if Excused(byId, paths, d) then Sorted(Elements(byId[Some(d.id)].tests.value)) else [])
  }

  function Acceptances(byId: Allowlist, paths: set<string>, ds: seq<Difference>): seq<Acceptance> {
    if ds == [] then []
    else Acceptances(byId, paths, ds[..|ds| - 1]) + [AcceptanceOf(byId, paths, ds[|ds| - 1])]
  }

  /** What is wrong with the entry of a difference that has one. */
  function ComplaintsOf(byId: Allowlist, paths: set<string>, d: Difference): seq<Complaint> {
    if Some(d.id) !in byId then []
    else
      var tests := byId[Some(d.id)].tests;
      if tests.None? || tests.value == [] then [Untested(d.id)]
      else
        var missing := Sorted(Elements(tests.value) - paths);
        if missing != [] then [TestsMissing(d.id, missing)] else []
  }

  function Complaints(byId: Allowlist, paths: set<string>, ds: seq<Difference>): seq<Complaint> {
    if ds == [] then []
    else Complaints(byId, paths, ds[..|ds| - 1]) + ComplaintsOf(byId, paths, ds[|ds| - 1])
  }

  /** The verdict on a list of differences, or nothing when the unmatched identifiers cannot be sorted. */
  function Applied(ds: seq<Difference>, entries: seq<Allowance>, paths: set<string>): Option<Verdict> {
    var byId := ById(entries);
    var leftovers := Leftovers(byId.Keys - Ids(ds));
    if leftovers.None? then None
    else Some(Verdict(Filter(IsRefused(byId, paths), ds),
                      Acceptances(byId, paths, Filter(IsExcused(byId, paths), ds)),
                      leftovers.value + Complaints(byId, paths, ds)))
  }

  // ------------------------------------------------------------------- loops

  lemma MissingTests(tests: set<string>, paths: set<string>)
    ensures Sorted(tests - paths) == [] <==> tests <= paths
  {
    if Sorted(tests - paths) == [] {
      forall test | test in tests ensures test in paths {
        assert test in tests - paths ==> test in Sorted(tests - paths);
      }
    } else {
      assert Sorted(tests - paths)[0] in Sorted(tests - paths);
    }
  }

  lemma Next(byId: Allowlist, paths: set<string>, ds: seq<Difference>, i: nat)
    requires i < |ds|
    ensures var d := ds[i];
            && Filter(IsRefused(byId, paths), ds[..i + 1])
               == Filter(IsRefused(byId, paths), ds[..i]) + (if Excused(byId, paths, d) then [] else [d])
            && Acceptances(byId, paths, Filter(IsExcused(byId, paths), ds[..i + 1]))
               == Acceptances(byId, paths, Filter(IsExcused(byId, paths), ds[..i]))
                  + (if Excused(byId, paths, d) then [AcceptanceOf(byId, paths, d)] else [])
            && Complaints(byId, paths, ds[..i + 1]) == Complaints(byId, paths, ds[..i]) + ComplaintsOf(byId, paths, d)
  {
    hide Excused, AcceptanceOf, ComplaintsOf;
    assert ds[..i + 1][..i] == ds[..i];
    var excused := Filter(IsExcused(byId, paths), ds[..i]);
    assert (excused + [ds[i]])[..|excused|] == excused;
    assert Filter(IsExcused(byId, paths), ds[..i + 1]) == excused + if Excused(byId, paths, ds[i]) then [ds[i]] else [];
    assert excused + [] == excused;
  }

  method UnmatchedEntries(ids: set<Option<string>>) returns (invalid: Option<seq<Complaint>>)
    ensures invalid == Leftovers(ids)
  {
    if None in ids {
      return if ids == {None} then Some([Unmatched(None)]) else None;
    }
    var names := Sorted(Names(ids));
    var complaints := [];
    for i := 0 to |names|
      invariant complaints == Wrapped(names[..i])
    {
      assert names[..i + 1][..i] == names[..i];
      complaints := complaints + [Unmatched(Some(names[i]))];
    }
    assert names[..|names|] == names;
    invalid := Some(complaints);
  }

  method ApplyAllowlist(ds: seq<Difference>, entries: seq<Allowance>, paths: set<string>) returns (r: Option<Verdict>)
    ensures r == Applied(ds, entries, paths)
  {
    hide Leftovers, Filter, Complaints, Acceptances, ById;
    var byId := ById(entries);
    var leftovers := UnmatchedEntries(byId.Keys - Ids(ds));
    if leftovers.None? {
      return None;
    }
    var unresolved, accepted, invalid := [], [], leftovers.value;
    NoneYet(byId, paths, ds);
    for i := 0 to |ds|
      invariant unresolved == Filter(IsRefused(byId, paths), ds[..i])
      invariant accepted == Acceptances(byId, paths, Filter(IsExcused(byId, paths), ds[..i]))
      invariant invalid == leftovers.value + Complaints(byId, paths, ds[..i])
    {
      var d := ds[i];
      Next(byId, paths, ds, i);
      if Some(d.id) !in byId {
        unresolved := unresolved + [d];
        continue;
      }
      var tests := byId[Some(d.id)].tests;
      if tests.None? || tests.value == [] {
        invalid := invalid + [Untested(d.id)];
        unresolved := unresolved + [d];
        continue;
      }
      var missing := Sorted(Elements(tests.value) - paths);
      MissingTests(Elements(tests.value), paths);
      if missing != [] {
        invalid := invalid + [TestsMissing(d.id, missing)];
        unresolved := unresolved + [d];
        continue;
      }
      accepted := accepted + [Acceptance(d, Sorted(Elements(tests.value)))];
    }
    assert ds[..|ds|] == ds;
    r := Some(Verdict(unresolved, accepted, invalid));
  }

  lemma NoneYet(byId: Allowlist, paths: set<string>, ds: seq<Difference>)
    ensures Filter(IsRefused(byId, paths), ds[..0]) == [] && Complaints(byId, paths, ds[..0]) == []
    ensures Acceptances(byId, paths, Filter(IsExcused(byId, paths), ds[..0])) == []
  {
  }

  // ------------------------------------------------------------ conservation

  function Originals(accepted: seq<Acceptance>): seq<Difference> {
    seq(|accepted|, i requires 0 <= i < |accepted| => accepted[i].difference)
  }

  lemma {:induction false} AcceptancesKeep(byId: Allowlist, paths: set<string>, ds: seq<Difference>)
    ensures Originals(Acceptances(byId, paths, ds)) == ds
  {
    hide AcceptanceOf, Originals;
    if ds == [] {
      NoOriginals();
    } else {
      var front, last := ds[..|ds| - 1], ds[|ds| - 1];
      AcceptancesKeep(byId, paths, front);
      OriginalsSnoc(Acceptances(byId, paths, front), AcceptanceOf(byId, paths, last));
      assert ds == front + [last];
    }
  }

  lemma NoOriginals()
    ensures Originals([]) == []
  {
  }

  lemma OriginalsSnoc(accepted: seq<Acceptance>, a: Acceptance)
    ensures Originals(accepted + [a]) == Originals(accepted) + [a.difference]
  {
  }

  lemma {:induction false} PartsMakeWhole(byId: Allowlist, paths: set<string>, ds: seq<Difference>)
    ensures multiset(Filter(IsRefused(byId, paths), ds)) + multiset(Filter(IsExcused(byId, paths), ds)) == multiset(ds)
  {
    if ds != [] {
      var front, last := ds[..|ds| - 1], ds[|ds| - 1];
      assert ds == front + [last];
      PartsMakeWhole(byId, paths, front);
    }
  }

  /**
   Every difference is either unresolved or accepted, never both and never
   dropped, and both lists keep the order in which the differences came.
   */
  lemma DifferencesAreSplit(ds: seq<Difference>, entries: seq<Allowance>, paths: set<string>)
    requires Applied(ds, entries, paths).Some?
    ensures var v, byId := Applied(ds, entries, paths).value, ById(entries);
            && v.unresolved == Filter(IsRefused(byId, paths), ds)
            && Originals(v.accepted) == Filter(IsExcused(byId, paths), ds)
            && multiset(v.unresolved) + multiset(Originals(v.accepted)) == multiset(ds)
  {
    hide Filter, Acceptances, ById, Leftovers, Complaints, Originals;
    AcceptancesKeep(ById(entries), paths, Filter(IsExcused(ById(entries), paths), ds));
    PartsMakeWhole(ById(entries), paths, ds);
  }

  // ---------------------------------------------------------------- the gate

  /** The entry that counts for an identifier is the last one that carries it. */
  predicate Decides(entries: seq<Allowance>, id: Option<string>, i: int) {
    0 <= i < |entries| && entries[i].id == id && forall j :: i < j < |entries| ==> entries[j].id != id
  }

  lemma {:induction false} LastDecides(entries: seq<Allowance>, id: Option<string>)
    requires id in ById(entries)
    ensures exists i :: Decides(entries, id, i) && ById(entries)[id] == entries[i]
  {
    var front, last := entries[..|entries| - 1], |entries| - 1;
    if entries[last].id == id {
      assert Decides(entries, id, last);
    } else {
      LastDecides(front, id);
      var i :| Decides(front, id, i) && ById(front)[id] == front[i];
      assert Decides(entries, id, i);
    }
  }

  lemma {:induction false} EntryIsKept(entries: seq<Allowance>, i: nat)
    requires i < |entries|
    ensures entries[i].id in ById(entries)
  {
    if i < |entries| - 1 {
      EntryIsKept(entries[..|entries| - 1], i);
    }
  }

  lemma ByIdDecides(entries: seq<Allowance>, id: Option<string>)
    ensures id in ById(entries) <==> exists i :: 0 <= i < |entries| && entries[i].id == id
    ensures id in ById(entries) ==> exists i :: Decides(entries, id, i) && ById(entries)[id] == entries[i]
  {
    hide ById;
    if id in ById(entries) {
      LastDecides(entries, id);
    }
    if i :| 0 <= i < |entries| && entries[i].id == id {
      EntryIsKept(entries, i);
    }
  }

  predicate Tested(entry: Allowance, paths: set<string>) {
    entry.tests.Some? && entry.tests.value != [] && forall test :: test in entry.tests.value ==> test in paths
  }

  /** The entry that counts for the difference names tests, and the candidate has all of them. */
  predicate Covered(entries: seq<Allowance>, paths: set<string>, d: Difference) {
    exists i :: 0 <= i < |entries| && Decides(entries, Some(d.id), i) && Tested(entries[i], paths)
  }

  predicate Used(entry: Allowance, ds: seq<Difference>) {
    exists d :: d in ds && entry.id == Some(d.id)
  }

  lemma OneDecides(entries: seq<Allowance>, id: Option<string>, i: int, j: int)
    requires Decides(entries, id, i) && Decides(entries, id, j)
    ensures i == j
  {
  }

  lemma ExcusedMeansCovered(entries: seq<Allowance>, paths: set<string>, d: Difference)
    ensures Excused(ById(entries), paths, d) <==> Covered(entries, paths, d)
  {
    var id := Some(d.id);
    ByIdDecides(entries, id);
    hide ById;
    if id in ById(entries) {
      var j :| Decides(entries, id, j) && ById(entries)[id] == entries[j];
      assert Excused(ById(entries), paths, d) <==> Tested(entries[j], paths);
      if i :| 0 <= i < |entries| && Decides(entries, id, i) && Tested(entries[i], paths) {
        OneDecides(entries, id, i, j);
      }
    }
  }

  lemma {:induction false} NoneRefused(byId: Allowlist, paths: set<string>, ds: seq<Difference>)
    ensures Filter(IsRefused(byId, paths), ds) == [] <==> forall d :: d in ds ==> Excused(byId, paths, d)
    ensures Filter(IsRefused(byId, paths), ds) == [] ==> Complaints(byId, paths, ds) == []
  {
    hide Excused, ComplaintsOf;
    if ds != [] {
      var front, last := ds[..|ds| - 1], ds[|ds| - 1];
      assert ds == front + [last];
      NoneRefused(byId, paths, front);
      if Excused(byId, paths, last) {
        NoComplaints(byId, paths, last);
      }
    }
  }

  lemma NoComplaints(byId: Allowlist, paths: set<string>, d: Difference)
    requires Excused(byId, paths, d)
    ensures ComplaintsOf(byId, paths, d) == []
  {
    MissingTests(Elements(byId[Some(d.id)].tests.value), paths);
  }

  lemma NoLeftovers(ids: set<Option<string>>)
    ensures Leftovers(ids) == Some([]) <==> ids == {}
  {
    if None !in ids {
      var names := Sorted(Names(ids));
      assert names == [] <==> Wrapped(names) == [];
      if id :| id in ids {
        assert id.value in Names(ids) && id.value in names;
      }
      assert forall name :: name in names ==> Some(name) in ids;
    }
  }

  lemma AllUsed(entries: seq<Allowance>, ds: seq<Difference>)
    ensures ById(entries).Keys - Ids(ds) == {} <==> forall i :: 0 <= i < |entries| ==> Used(entries[i], ds)
  {
    forall entry: Allowance ensures Used(entry, ds) <==> entry.id in Ids(ds) {
    }
    forall id ensures id in ById(entries) <==> exists i :: 0 <= i < |entries| && entries[i].id == id {
      ByIdDecides(entries, id);
    }
    hide ById, Ids, Used;
    if ById(entries).Keys - Ids(ds) == {} {
      forall i | 0 <= i < |entries| ensures Used(entries[i], ds) {
        assert entries[i].id in ById(entries);
        assert entries[i].id !in ById(entries).Keys - Ids(ds);
      }
    }
    if forall i :: 0 <= i < |entries| ==> Used(entries[i], ds) {
      forall id | id in ById(entries) ensures id in Ids(ds) {
        var i :| 0 <= i < |entries| && entries[i].id == id;
        assert Used(entries[i], ds);
      }
    }
  }

  /** Nothing is left to object to. */
  predicate Opens(verdict: Option<Verdict>) {
    verdict.Some? && verdict.value.unresolved == [] && verdict.value.invalid == []
  }

  /**
   The gate opens exactly when the deciding entry of each difference names tests
   that all exist, and each entry of the allowlist matches some difference.
   */
  lemma GateIsExact(ds: seq<Difference>, entries: seq<Allowance>, paths: set<string>)
    ensures Opens(Applied(ds, entries, paths))
            <==> (forall d :: d in ds ==> Covered(entries, paths, d))
                 && forall i :: 0 <= i < |entries| ==> Used(entries[i], ds)
  {
    var byId := ById(entries);
    NoneRefused(byId, paths, ds);
    forall d ensures Excused(byId, paths, d) <==> Covered(entries, paths, d) {
      ExcusedMeansCovered(entries, paths, d);
    }
    NoLeftovers(byId.Keys - Ids(ds));
    AllUsed(entries, ds);
    hide Filter, Complaints, Excused, Covered, Used, Leftovers, ById, Ids, Acceptances;
  }

  /** Without an allowlist the gate opens exactly for compatible manifests. */
  lemma StrictGate(b: Manifest, c: Manifest, paths: set<string>)
    requires Differences(b, c).Some?
    ensures Opens(Applied(Differences(b, c).value, [], paths)) <==> ManifestCompatibility.Compatible(b, c)
  {
    hide Differences, ManifestCompatibility.Compatible, Applied;
    var ds := Differences(b, c).value;
    GateIsExact(ds, [], paths);
    ManifestCompatibility.NothingReported(b, c);
    if ds != [] {
      assert ds[0] in ds && !Covered([], paths, ds[0]);
    }
  }

  // -------------------------------------------------------------- complaints

  predicate HasId(ds: seq<Difference>, id: string) {
    exists d :: d in ds && d.id == id
  }

  /** These are, in ascending order, the tests of the entry that the candidate lacks. */
  ghost predicate LacksTests(entry: Allowance, paths: set<string>, tests: seq<string>) {
    && entry.tests.Some? && tests != [] && Ascending(tests)
    && forall test :: test in tests <==> test in entry.tests.value && test !in paths
  }

  /** What a complaint says is so. */
  ghost predicate Deserved(x: Complaint, ds: seq<Difference>, entries: seq<Allowance>, paths: set<string>) {
    match x
    case Unmatched(id) => exists i :: 0 <= i < |entries| && entries[i].id == id && !Used(entries[i], ds)
    case Untested(id) =>
      HasId(ds, id) && exists i :: 0 <= i < |entries| && Decides(entries, Some(id), i) && NoTests(entries[i])
    case TestsMissing(id, tests) =>
      && HasId(ds, id)
      && exists i :: 0 <= i < |entries| && Decides(entries, Some(id), i) && LacksTests(entries[i], paths, tests)
  }

  predicate NoTests(entry: Allowance) {
    entry.tests.None? || entry.tests.value == []
  }

  lemma {:induction false} WrappedHolds(names: seq<string>, x: Complaint)
    ensures x in Wrapped(names) <==> x.Unmatched? && x.id.Some? && x.id.value in names
  {
    if names != [] {
      var front, last := names[..|names| - 1], names[|names| - 1];
      assert names == front + [last];
      WrappedHolds(front, x);
    }
  }

  lemma LeftoversHold(ids: set<Option<string>>, x: Complaint)
    requires Leftovers(ids).Some?
    ensures x in Leftovers(ids).value <==> x.Unmatched? && x.id in ids
  {
    if None !in ids {
      WrappedHolds(Sorted(Names(ids)), x);
    }
  }

  lemma {:induction false} ComplaintsHold(byId: Allowlist, paths: set<string>, ds: seq<Difference>, x: Complaint)
    ensures x in Complaints(byId, paths, ds) <==> exists d :: d in ds && x in ComplaintsOf(byId, paths, d)
  {
    hide ComplaintsOf;
    if ds != [] {
      var front, last := ds[..|ds| - 1], ds[|ds| - 1];
      assert ds == front + [last];
      ComplaintsHold(byId, paths, front, x);
    }
  }

  lemma LackedTests(entry: Allowance, paths: set<string>, tests: seq<string>)
    requires entry.tests.Some?
    ensures LacksTests(entry, paths, tests) <==> tests != [] && tests == Sorted(Elements(entry.tests.value) - paths)
  {
    hide Ascending;
    var missing := Elements(entry.tests.value) - paths;
    SortedAscends(missing);
    if LacksTests(entry, paths, tests) {
      SortedIsOnly(tests, missing);
    }
  }

  lemma ComplaintAbout(byId: Allowlist, paths: set<string>, d: Difference, x: Complaint)
    requires Some(d.id) in byId
    ensures var entry := byId[Some(d.id)];
            x in ComplaintsOf(byId, paths, d)
            <==> || (x == Untested(d.id) && NoTests(entry))
                 || (x.TestsMissing? && x.difference == d.id && LacksTests(entry, paths, x.tests))
  {
    hide LacksTests, Elements;
    var entry := byId[Some(d.id)];
    if x.TestsMissing? && entry.tests.Some? {
      LackedTests(entry, paths, x.tests);
    }
    if NoTests(entry) {
      NothingLacked(entry, paths);
    }
  }

  lemma NothingLacked(entry: Allowance, paths: set<string>)
    requires NoTests(entry)
    ensures forall tests :: !LacksTests(entry, paths, tests)
  {
    forall tests ensures !LacksTests(entry, paths, tests) {
      assert tests != [] ==> tests[0] in tests;
    }
  }

  /** A complaint about one difference, in terms of the entry that decides it. */
  lemma ComplaintOfEntry(entries: seq<Allowance>, paths: set<string>, d: Difference, i: nat, x: Complaint)
    requires i < |entries| && Decides(entries, Some(d.id), i)
    ensures x in ComplaintsOf(ById(entries), paths, d)
            <==> || (x == Untested(d.id) && NoTests(entries[i]))
                 || (x.TestsMissing? && x.difference == d.id && LacksTests(entries[i], paths, x.tests))
  {
    hide ById, ComplaintsOf, LacksTests, NoTests;
    var id := Some(d.id);
    ByIdDecides(entries, id);
    var j :| Decides(entries, id, j) && ById(entries)[id] == entries[j];
    OneDecides(entries, id, i, j);
    ComplaintAbout(ById(entries), paths, d, x);
  }

  lemma ComplaintOfDifference(entries: seq<Allowance>, paths: set<string>, d: Difference, x: Complaint)
    ensures x in ComplaintsOf(ById(entries), paths, d)
            <==> !x.Unmatched? && x.difference == d.id && Deserved(x, [d], entries, paths)
  {
    hide ComplaintsOf, LacksTests, NoTests;
    var id := Some(d.id);
    ByIdDecides(entries, id);
    assert HasId([d], d.id) by { assert d in [d]; }
    if id in ById(entries) {
      var i :| Decides(entries, id, i) && ById(entries)[id] == entries[i];
      ComplaintOfEntry(entries, paths, d, i, x);
      forall j | Decides(entries, id, j) ensures i == j {
        OneDecides(entries, id, i, j);
      }
    } else {
      NoEntryNoComplaint(ById(entries), paths, d);
    }
  }

  lemma NoEntryNoComplaint(byId: Allowlist, paths: set<string>, d: Difference)
    requires Some(d.id) !in byId
    ensures ComplaintsOf(byId, paths, d) == []
  {
  }

  /** Exactly the complaints are made that are deserved. */
  lemma ComplaintsAreExact(ds: seq<Difference>, entries: seq<Allowance>, paths: set<string>, x: Complaint)
    requires Applied(ds, entries, paths).Some?
    ensures x in Applied(ds, entries, paths).value.invalid <==> Deserved(x, ds, entries, paths)
  {
    var byId := ById(entries);
    var ids := byId.Keys - Ids(ds);
    LeftoversHold(ids, x);
    ComplaintsHold(byId, paths, ds, x);
    if x.Unmatched? {
      ByIdDecides(entries, x.id);
      assert x.id in Ids(ds) <==> exists d :: d in ds && x.id == Some(d.id);
    }
    forall d ensures x in ComplaintsOf(byId, paths, d)
                     <==> !x.Unmatched? && x.difference == d.id && Deserved(x, [d], entries, paths) {
      ComplaintOfDifference(entries, paths, d, x);
    }
    hide ById, Ids, Leftovers, Complaints, ComplaintsOf, LacksTests, NoTests, Decides;
  }

  /** The allowlist cannot be applied exactly when an entry without identifier and another one match nothing. */
  lemma NotAppliedExactly(ds: seq<Difference>, entries: seq<Allowance>, paths: set<string>)
    ensures Applied(ds, entries, paths).None?
            <==> exists i, j :: && 0 <= i < |entries| && 0 <= j < |entries|
                                && entries[i].id.None? && entries[j].id.Some? && !Used(entries[j], ds)
  {
    var ids := ById(entries).Keys - Ids(ds);
    assert None !in Ids(ds);
    forall id ensures id in ids <==> exists i :: 0 <= i < |entries| && entries[i].id == id && !Used(entries[i], ds) {
      ByIdDecides(entries, id);
      assert id in Ids(ds) <==> exists d :: d in ds && id == Some(d.id);
    }
    assert forall entry: Allowance :: entry.id.None? ==> !Used(entry, ds);
    hide ById, Ids, Used;
    if i, j :| && 0 <= i < |entries| && 0 <= j < |entries| && entries[i].id.None? && entries[j].id.Some?
               && !Used(entries[j], ds)
    {
      assert entries[i].id in ids && entries[j].id in ids;
    }
    if Applied(ds, entries, paths).None? {
      assert None in ids && ids != {None};
      var id :| id in ids && id != None;
      var i :| 0 <= i < |entries| && entries[i].id == None && !Used(entries[i], ds);
      var j :| 0 <= j < |entries| && entries[j].id == id && !Used(entries[j], ds);
    }
  }

  lemma {:induction false} AcceptancesHold(byId: Allowlist, paths: set<string>, ds: seq<Difference>, a: Acceptance)
    ensures a in Acceptances(byId, paths, ds) <==> exists d :: d in ds && a == AcceptanceOf(byId, paths, d)
  {
    hide AcceptanceOf;
    if ds != [] {
      var front, last := ds[..|ds| - 1], ds[|ds| - 1];
      assert ds == front + [last];
      AcceptancesHold(byId, paths, front, a);
    }
  }

  lemma {:induction false} KeptAre(byId: Allowlist, paths: set<string>, ds: seq<Difference>, d: Difference)
    ensures d in Filter(IsExcused(byId, paths), ds) <==> d in ds && Excused(byId, paths, d)
  {
    hide Excused;
    if ds != [] {
      var front, last := ds[..|ds| - 1], ds[|ds| - 1];
      assert ds == front + [last];
      KeptAre(byId, paths, front, d);
    }
  }

  /** These are, in ascending order, the tests of the entry. */
  ghost predicate ListsTests(entry: Allowance, tests: seq<string>) {
    entry.tests.Some? && Ascending(tests) && forall test :: test in tests <==> test in entry.tests.value
  }

  /** A difference is accepted with the tests of the entry that decides it. */
  lemma AcceptedWithTests(ds: seq<Difference>, entries: seq<Allowance>, paths: set<string>, a: Acceptance)
    requires Applied(ds, entries, paths).Some? && a in Applied(ds, entries, paths).value.accepted
    ensures a.difference in ds
    ensures exists i :: && 0 <= i < |entries| && Decides(entries, Some(a.difference.id), i)
                        && Tested(entries[i], paths) && ListsTests(entries[i], a.tests)
  {
    hide ById, Leftovers, Filter, Acceptances, Complaints, Ids;
    var byId := ById(entries);
    AcceptancesHold(byId, paths, Filter(IsExcused(byId, paths), ds), a);
    KeptAre(byId, paths, ds, a.difference);
    ByIdDecides(entries, Some(a.difference.id));
    SortedAscends(Elements(byId[Some(a.difference.id)].tests.value));
    hide Ascending;
  }
}
