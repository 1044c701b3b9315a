/**
 * The seeder of one private BuddyBoss group per Brazilian state (UF). The
 * groups are a store keyed by slug, changed in place; whether BuddyBoss
 * accepts each `groups_create_group` call is a parameter. Group avatars
 * and the creation timestamp are not modelled.
 */
module StateGroupSeeder {
  import opened Php

  /** A stored BuddyBoss group. */
  datatype Group = Group(id: nat, name: string, slug: string, description: string, status: string)

  /** The BuddyBoss groups, by slug, and the id the next new group receives. */
  class GroupStore {
    var groups: map<string, Group>
    var nextId: nat

    constructor(groups: map<string, Group>, nextId: nat)
      ensures this.groups == groups && this.nextId == nextId
    {
      this.groups := groups;
      this.nextId := nextId;
    }
  }

  /** The normalised state code: trimmed and upper-cased. */
  function StateCode(uf: string): string
  {
    ToUpper(Trim(uf))
  }

  /** The group slug of a state: 'estado-' and the lower-cased normalised code. */
  function GroupSlug(uf: string): string
  {
    "estado-" + ToLower(StateCode(uf))
  }

  /** A group slug starts with 'estado-', is as long as that plus the trimmed code, and has no upper-case letter. */
  lemma GroupSlugShape(uf: string)
    ensures StartsWith(GroupSlug(uf), "estado-")
    ensures |GroupSlug(uf)| == 7 + |Trim(uf)|
    ensures forall i :: 0 <= i < |GroupSlug(uf)| ==> !IsUpperChar(GroupSlug(uf)[i])
  {
    var prefix := "estado-";
    assert GroupSlug(uf) == prefix + ToLower(StateCode(uf));
    NoCapitals(prefix);
    LowerPrefixed(prefix, StateCode(uf));
  }

  /** The slug prefix has no capitals. */
  lemma NoCapitals(prefix: string)
    requires prefix == "estado-"
    ensures forall i :: 0 <= i < |prefix| ==> !IsUpperChar(prefix[i])
  {
  }

  /** A prefix without capitals followed by a lower-cased text has no capitals. */
  lemma LowerPrefixed(prefix: string, s: string)
    requires forall i :: 0 <= i < |prefix| ==> !IsUpperChar(prefix[i])
    ensures forall i :: 0 <= i < |prefix + ToLower(s)| ==> !IsUpperChar((prefix + ToLower(s))[i])
  {
    var r := prefix + ToLower(s);
    forall i | 0 <= i < |r|
      ensures !IsUpperChar(r[i])
    {
      if i >= |prefix| {
        assert r[i] == LowerChar(s[i - |prefix|]);
      } else {
        assert r[i] == prefix[i];
      }
    }
  }

  /** The group name of a state: 'Estado - ' and the normalised code. */
  function GroupName(uf: string): string
  {
    "Estado - " + StateCode(uf)
  }

  /** A group name carries no lower-case letter after 'Estado - '. */
  lemma GroupNameUpperCode(uf: string)
    ensures forall i :: 9 <= i < |GroupName(uf)| ==> !IsLowerChar(GroupName(uf)[i])
  {
    var name := GroupName(uf);
    forall i | 9 <= i < |name|
      ensures !IsLowerChar(name[i])
    {
      assert name[i] == UpperChar(Trim(uf)[i - 9]);
    }
  }

  function GroupDescription(stateName: string): string
  {
    "Grupo estadual do Fortalece PSE para o estado de " + stateName
  }

  /** The slug `getGroupByUF` looks up: 'estado-' and the trimmed, lower-cased code. */
  function LookupSlug(uf: string): string
  {
    "estado-" + ToLower(Trim(uf))
  }

  /** `getGroupByUF` asks for the very slug `createOrUpdateStateGroup` writes. */
  lemma LookupFindsSeededSlug(uf: string)
    ensures LookupSlug(uf) == GroupSlug(uf)
  {
    LowerOfUpper(Trim(uf));
  }

  const UpdateFailed: string := "Falha ao atualizar grupo"

  const CreateFailed: string := "Falha ao criar grupo"

  /** What `createOrUpdateStateGroup` returns. */
  datatype GroupOutcome = GroupOutcome(success: bool, created: bool, groupId: Option<nat>, error: Option<string>)

  /** One `createOrUpdateStateGroup` call: its answer, the groups afterwards and the next id afterwards. */
  function Upsert(groups: map<string, Group>, nextId: nat, uf: string, stateName: string, writeOk: bool)
    : (r: (GroupOutcome, map<string, Group>, nat))
    ensures r.0.success <==> writeOk && (GroupSlug(uf) in groups || nextId > 0)
    ensures r.0.success ==> (GroupSlug(uf) in r.1 && r.0.groupId == Some(r.1[GroupSlug(uf)].id)
                             && r.1[GroupSlug(uf)].name == GroupName(uf) && r.1[GroupSlug(uf)].status == "private")
    ensures r.0.created <==> r.0.success && GroupSlug(uf) !in groups
    ensures !r.0.success ==> r.0.groupId.None? && r.1 == groups && r.2 == nextId
    ensures GroupSlug(uf) in groups && r.0.success ==> r.0.groupId == Some(groups[GroupSlug(uf)].id) && r.2 == nextId
    ensures !r.0.success ==> r.0.error == Some(if GroupSlug(uf) in groups then UpdateFailed else CreateFailed)
  {
    var slug := GroupSlug(uf);
    var group := Group(0, GroupName(uf), slug, GroupDescription(stateName), "private");
    if slug in groups then
      if writeOk then
        (GroupOutcome(true, false, Some(groups[slug].id), None), groups[slug := group.(id := groups[slug].id)], nextId)
      else (GroupOutcome(false, false, None, Some(UpdateFailed)), groups, nextId)
    else if writeOk && nextId > 0 then
      (GroupOutcome(true, true, Some(nextId), None), groups[slug := group.(id := nextId)], nextId + 1)
    else (GroupOutcome(false, false, None, Some(CreateFailed)), groups, nextId)
  }

  /** No group is ever removed, and every group under another slug is left as it was. */
  lemma UpsertKeepsOtherGroups(groups: map<string, Group>, nextId: nat, uf: string, stateName: string, writeOk: bool)
    ensures var gs := Upsert(groups, nextId, uf, stateName, writeOk).1;
      forall s :: s in groups ==> s in gs && (s != GroupSlug(uf) ==> gs[s] == groups[s])
    ensures var gs := Upsert(groups, nextId, uf, stateName, writeOk).1;
      forall s :: s in gs ==> s in groups || s == GroupSlug(uf)
  {
  }

  /**
   * `createOrUpdateStateGroup`: `writeOk` is whether BuddyBoss accepts the
   * write; a new group's id is the next id, and an id of 0 is falsy, so
   * it counts as a failure.
   */
  method CreateOrUpdateStateGroup(store: GroupStore, uf: string, stateName: string, writeOk: bool) returns (r: GroupOutcome)
    modifies store
    ensures (r, store.groups, store.nextId) == Upsert(old(store.groups), old(store.nextId), uf, stateName, writeOk)
  {
    var code := StateCode(uf);
    var slug := "estado-" + ToLower(code);
    var group := Group(0, "Estado - " + code, slug, GroupDescription(stateName), "private");
    if slug in store.groups {
      var existing := store.groups[slug];
      if writeOk {
        store.groups := store.groups[slug := group.(id := existing.id)];
        return GroupOutcome(true, false, Some(existing.id), None);
      }
      return GroupOutcome(false, false, None, Some(UpdateFailed));
    }
    var groupId := if writeOk then store.nextId else 0;
    if groupId != 0 {
      store.groups := store.groups[slug := group.(id := groupId)];
      store.nextId := store.nextId + 1;
      return GroupOutcome(true, true, Some(groupId), None);
    }
    r := GroupOutcome(false, false, None, Some(CreateFailed));
  }

  /** `getGroupByUF`. */
  function GetGroupByUF(groups: map<string, Group>, uf: string): (g: Option<Group>)
    ensures g.Some? <==> LookupSlug(uf) in groups
  {
    if LookupSlug(uf) in groups then Some(groups[LookupSlug(uf)]) else None
  }

  /** After a successful `createOrUpdateStateGroup`, `getGroupByUF` finds the group whose id it returned. */
  lemma GroupFoundAfterUpsert(groups: map<string, Group>, nextId: nat, uf: string, stateName: string, writeOk: bool)
    ensures var r := Upsert(groups, nextId, uf, stateName, writeOk);
      r.0.success ==> GetGroupByUF(r.1, uf).Some? && Some(GetGroupByUF(r.1, uf).value.id) == r.0.groupId
  {
    LookupFindsSeededSlug(uf);
  }

  /** The report of `seed`. */
  datatype SeedReport = SeedReport(created: seq<string>, updated: seq<string>, errors: seq<string>)

  /** The report, groups and next id after the loop has visited `states` in order. */
  function SeedAll(groups: map<string, Group>, nextId: nat, states: seq<(string, string)>, writeOk: string -> bool)
    : (SeedReport, map<string, Group>, nat)
  {
    if states == [] then (SeedReport([], [], []), groups, nextId)
    else
      var (uf, stateName) := states[|states| - 1];
      var (rep, gs, n) := SeedAll(groups, nextId, states[..|states| - 1], writeOk);
      var (r, gs', n') := Upsert(gs, n, uf, stateName, writeOk(uf));
      (SeedStep(rep, uf, r), gs', n')
  }

  /** One iteration of `seed`'s loop: the state goes to created, updated or errors. */
  function SeedStep(rep: SeedReport, uf: string, r: GroupOutcome): (rep': SeedReport)
    ensures |rep'.created| + |rep'.updated| + |rep'.errors| == |rep.created| + |rep.updated| + |rep.errors| + 1
    ensures rep'.created == rep.created || rep'.created == rep.created + [uf]
    ensures rep'.updated == rep.updated || rep'.updated == rep.updated + [uf]
  {
    if !r.success then SeedReport(rep.created, rep.updated, rep.errors + [ErrorLine(uf, r)])
    else if r.created then SeedReport(rep.created + [uf], rep.updated, rep.errors)
    else SeedReport(rep.created, rep.updated + [uf], rep.errors)
  }

  /** The line `seed` reports for a state whose write failed. */
  function ErrorLine(uf: string, r: GroupOutcome): string
  {
    "UF " + uf + ": " + (if r.error.Some? then r.error.value else "")
  }

  /** What `seed` returns and leaves in the store. */
  function Seeding(apiLoaded: bool, groups: map<string, Group>, nextId: nat, states: seq<(string, string)>,
                   writeOk: string -> bool): (SeedReport, map<string, Group>, nat)
  {
    if !apiLoaded then (SeedReport([], [], ["BuddyBoss plugin não está ativo"]), groups, nextId)
    else SeedAll(groups, nextId, states, writeOk)
  }

  /** `seed`: `apiLoaded` is whether `groups_create_group` exists, `writeOk` whether each state's write is accepted. */
  method Seed(store: GroupStore, apiLoaded: bool, states: seq<(string, string)>, writeOk: string -> bool) returns (report: SeedReport)
    modifies store
    ensures (report, store.groups, store.nextId) == Seeding(apiLoaded, old(store.groups), old(store.nextId), states, writeOk)
  {
    if !apiLoaded {
      return SeedReport([], [], ["BuddyBoss plugin não está ativo"]);
    }
    var created: seq<string> := [];
    var updated: seq<string> := [];
    var errors: seq<string> := [];
    var i := 0;
    while i < |states|
      invariant 0 <= i <= |states|
      invariant (SeedReport(created, updated, errors), store.groups, store.nextId)
        == SeedAll(old(store.groups), old(store.nextId), states[..i], writeOk)
    {
      assert states[..i + 1][..i] == states[..i];
      var (uf, stateName) := states[i];
      var result := CreateOrUpdateStateGroup(store, uf, stateName, writeOk(uf));
      if result.success {
        if result.created {
          created := created + [uf];
        } else {
          updated := updated + [uf];
        }
      } else {
        errors := errors + ["UF " + uf + ": " + result.error.value];
      }
      i := i + 1;
    }
    assert states[..i] == states;
    report := SeedReport(created, updated, errors);
  }

  /** An error line of `seed`: a configured state and one of the two failure messages. */
  predicate StateError(e: string, ufs: seq<string>)
  {
    exists uf :: uf in ufs && (e == "UF " + uf + ": " + UpdateFailed || e == "UF " + uf + ": " + CreateFailed)
  }

  /**
   * Without the groups API `seed` reports one error and changes nothing.
   * Otherwise every state lands in exactly one of created, updated or
   * errors: the three lists together are as long as the states, created
   * and updated keep config order, and every error names a configured
   * state and one of the two failure messages.
   */
  lemma SeedPartition(apiLoaded: bool, groups: map<string, Group>, nextId: nat, states: seq<(string, string)>,
                      writeOk: string -> bool)
    ensures !apiLoaded ==>
      Seeding(apiLoaded, groups, nextId, states, writeOk) == (SeedReport([], [], ["BuddyBoss plugin não está ativo"]), groups, nextId)
    ensures var rep := Seeding(apiLoaded, groups, nextId, states, writeOk).0;
      apiLoaded ==> |rep.created| + |rep.updated| + |rep.errors| == |states|
    ensures var rep := Seeding(apiLoaded, groups, nextId, states, writeOk).0;
      apiLoaded ==> IsSubsequence(rep.created, Keys(states)) && IsSubsequence(rep.updated, Keys(states))
    ensures var rep := Seeding(apiLoaded, groups, nextId, states, writeOk).0;
      apiLoaded ==> forall e :: e in rep.errors ==> StateError(e, Keys(states))
    ensures apiLoaded ==>
      Seeding(apiLoaded, groups, nextId, states, writeOk).0 == Routed(Keys(states), Outcomes(groups, nextId, states, writeOk))
  {
    if apiLoaded {
      SeedAllRoutes(groups, nextId, states, writeOk);
      SeedAllPartition(groups, nextId, states, writeOk);
      SeedAllErrors(groups, nextId, states, writeOk);
    }
  }

  lemma SeedAllPartition(groups: map<string, Group>, nextId: nat, states: seq<(string, string)>,
                          writeOk: string -> bool)
    ensures var rep := SeedAll(groups, nextId, states, writeOk).0;
      |rep.created| + |rep.updated| + |rep.errors| == |states|
    ensures var rep := SeedAll(groups, nextId, states, writeOk).0;
      IsSubsequence(rep.created, Keys(states)) && IsSubsequence(rep.updated, Keys(states))
  {
    SeedAllSizes(groups, nextId, states, writeOk);
    SeedAllOrder(groups, nextId, states, writeOk);
  }

  lemma {:induction false} SeedAllSizes(groups: map<string, Group>, nextId: nat, states: seq<(string, string)>,
                                        writeOk: string -> bool)
    ensures var rep := SeedAll(groups, nextId, states, writeOk).0;
      |rep.created| + |rep.updated| + |rep.errors| == |states|
  {
    if states != [] {
      SeedAllSizes(groups, nextId, states[..|states| - 1], writeOk);
    }
  }

  lemma {:induction false} SeedAllOrder(groups: map<string, Group>, nextId: nat, states: seq<(string, string)>,
                                        writeOk: string -> bool)
    ensures var rep := SeedAll(groups, nextId, states, writeOk).0;
      IsSubsequence(rep.created, Keys(states)) && IsSubsequence(rep.updated, Keys(states))
  {
    if states == [] {
      SubsequenceEmpty(Keys(states));
    } else {
      var init := states[..|states| - 1];
      var last := states[|states| - 1];
      SeedAllOrder(groups, nextId, init, writeOk);
      KeysSnoc(states);
      var (rep, gs, n) := SeedAll(groups, nextId, init, writeOk);
      var r := Upsert(gs, n, last.0, last.1, writeOk(last.0)).0;
      assert SeedAll(groups, nextId, states, writeOk).0 == SeedStep(rep, last.0, r);
      SeedStepOrder(rep, last.0, r, Keys(init));
    }
  }

  /** One step of `seed` keeps created and updated in config order. */
  lemma SeedStepOrder(rep: SeedReport, uf: string, r: GroupOutcome, keys: seq<string>)
    requires IsSubsequence(rep.created, keys) && IsSubsequence(rep.updated, keys)
    ensures var rep' := SeedStep(rep, uf, r);
      IsSubsequence(rep'.created, keys + [uf]) && IsSubsequence(rep'.updated, keys + [uf])
  {
    SubsequenceSnoc(rep.created, keys, uf);
    SubsequenceSnoc(rep.updated, keys, uf);
  }

  lemma {:induction false} SeedAllErrors(groups: map<string, Group>, nextId: nat, states: seq<(string, string)>,
                                         writeOk: string -> bool)
    ensures forall e :: e in SeedAll(groups, nextId, states, writeOk).0.errors ==> StateError(e, Keys(states))
  {
    if states != [] {
      var init := states[..|states| - 1];
      var last := states[|states| - 1];
      SeedAllErrors(groups, nextId, init, writeOk);
      SplitLast(states);
      KeysAppend(init, [last]);
      assert Keys([last]) == [last.0];
      var (rep, gs, n) := SeedAll(groups, nextId, init, writeOk);
      forall e | e in rep.errors
        ensures StateError(e, Keys(states))
      {
        var uf :| uf in Keys(init) && (e == "UF " + uf + ": " + UpdateFailed || e == "UF " + uf + ": " + CreateFailed);
        assert uf in Keys(states);
      }
      assert last.0 in Keys(states);
    }
  }

  /**
   * Groups are never removed, and after `seed` every state whose write was
   * accepted has its group, named after the state; so `getGroupByUF`
   * finds it.
   */
  lemma {:induction false} SeedLeavesGroups(groups: map<string, Group>, nextId: nat, states: seq<(string, string)>,
                                            writeOk: string -> bool)
    requires nextId > 0
    ensures var gs := SeedAll(groups, nextId, states, writeOk).1;
      forall s :: s in groups ==> s in gs
    ensures SeedAll(groups, nextId, states, writeOk).2 > 0
    ensures var gs := SeedAll(groups, nextId, states, writeOk).1;
      forall i :: 0 <= i < |states| && writeOk(states[i].0) ==> GetGroupByUF(gs, states[i].0).Some?
  {
    if states != [] {
      var init := states[..|states| - 1];
      var (uf, stateName) := states[|states| - 1];
      SeedLeavesGroups(groups, nextId, init, writeOk);
      var (rep, gs, n) := SeedAll(groups, nextId, init, writeOk);
      var (r, gs', n') := Upsert(gs, n, uf, stateName, writeOk(uf));
      forall i | 0 <= i < |states| && writeOk(states[i].0)
        ensures GetGroupByUF(gs', states[i].0).Some?
      {
        LookupFindsSeededSlug(states[i].0);
        if i < |states| - 1 {
          assert states[i] == init[i];
        }
      }
    }
  }

  /** The answer `createOrUpdateStateGroup` gives each state, in turn, during `seed`'s loop. */
  function Outcomes(groups: map<string, Group>, nextId: nat, states: seq<(string, string)>, writeOk: string -> bool)
    : (os: seq<GroupOutcome>)
    ensures |os| == |states|
  {
    if states == [] then []
    else
      var (uf, stateName) := states[|states| - 1];
      var (rep, gs, n) := SeedAll(groups, nextId, states[..|states| - 1], writeOk);
      Outcomes(groups, nextId, states[..|states| - 1], writeOk) + [Upsert(gs, n, uf, stateName, writeOk(uf)).0]
  }

  predicate CreatedOutcome(o: GroupOutcome) { o.success && o.created }

  predicate UpdatedOutcome(o: GroupOutcome) { o.success && !o.created }

  /** The states, in order, whose answer `kind` accepts. */
  function Select(ufs: seq<string>, os: seq<GroupOutcome>, kind: GroupOutcome -> bool): seq<string>
    requires |ufs| == |os|
  {
    if ufs == [] then []
    else Select(ufs[..|ufs| - 1], os[..|os| - 1], kind) + (if kind(os[|os| - 1]) then [ufs[|ufs| - 1]] else [])
  }

  /** The error lines, in order, of the states whose answer was a failure. */
  function FailureLines(ufs: seq<string>, os: seq<GroupOutcome>): seq<string>
    requires |ufs| == |os|
  {
    if ufs == [] then []
    else FailureLines(ufs[..|ufs| - 1], os[..|os| - 1]) + (if !os[|os| - 1].success then [ErrorLine(ufs[|ufs| - 1], os[|os| - 1])] else [])
  }

  /** One more state: the report takes one more step with that state's own answer. */
  lemma SeedAllSnoc(groups: map<string, Group>, nextId: nat, states: seq<(string, string)>, writeOk: string -> bool)
    requires states != []
    ensures var os := Outcomes(groups, nextId, states, writeOk);
      os[..|os| - 1] == Outcomes(groups, nextId, states[..|states| - 1], writeOk)
      && SeedAll(groups, nextId, states, writeOk).0
         == SeedStep(SeedAll(groups, nextId, states[..|states| - 1], writeOk).0, states[|states| - 1].0, os[|os| - 1])
  {
    var os := Outcomes(groups, nextId, states, writeOk);
    assert os[..|os| - 1] == Outcomes(groups, nextId, states[..|states| - 1], writeOk);
  }

  /**
   * `seed`'s loop routes every state by its own answer: created holds, in
   * order, the states whose group was created, updated those whose group
   * was updated, and errors the failure line of every state whose write
   * failed.
   */
  lemma {:induction false} SeedAllRoutes(groups: map<string, Group>, nextId: nat, states: seq<(string, string)>,
                                         writeOk: string -> bool)
    ensures SeedAll(groups, nextId, states, writeOk).0
      == Routed(Keys(states), Outcomes(groups, nextId, states, writeOk))
  {
    if states != [] {
      var init := states[..|states| - 1];
      var last := states[|states| - 1];
      SeedAllRoutes(groups, nextId, init, writeOk);
      SeedAllSnoc(groups, nextId, states, writeOk);
      KeysSnoc(states);
      var os := Outcomes(groups, nextId, states, writeOk);
      assert os == os[..|os| - 1] + [os[|os| - 1]];
      RoutedStep(Keys(init), Outcomes(groups, nextId, init, writeOk), last.0, os[|os| - 1]);
    }
  }

  /** The report `seed` would give if each state were routed by its own answer. */
  function Routed(ufs: seq<string>, os: seq<GroupOutcome>): SeedReport
    requires |ufs| == |os|
  {
    SeedReport(Select(ufs, os, CreatedOutcome), Select(ufs, os, UpdatedOutcome), FailureLines(ufs, os))
  }

  /** Routing one more state is one more step of the loop. */
  lemma RoutedStep(ufs: seq<string>, os: seq<GroupOutcome>, uf: string, o: GroupOutcome)
    requires |ufs| == |os|
    ensures Routed(ufs + [uf], os + [o]) == SeedStep(Routed(ufs, os), uf, o)
  {
    assert (ufs + [uf])[..|ufs|] == ufs && (os + [o])[..|os|] == os;
  }

  /** A state is selected exactly when its answer is of the kind, provided no state appears twice. */
  lemma {:induction false} SelectMember(ufs: seq<string>, os: seq<GroupOutcome>, kind: GroupOutcome -> bool)
    requires |ufs| == |os|
    requires forall i, j :: 0 <= i < j < |ufs| ==> ufs[i] != ufs[j]
    ensures forall x :: x in Select(ufs, os, kind) ==> x in ufs
    ensures forall i :: 0 <= i < |ufs| ==> (ufs[i] in Select(ufs, os, kind) <==> kind(os[i]))
  {
    if ufs != [] {
      var n := |ufs| - 1;
      SelectMember(ufs[..n], os[..n], kind);
      forall i | 0 <= i < |ufs|
        ensures ufs[i] in Select(ufs, os, kind) <==> kind(os[i])
      {
        if i < n {
          assert ufs[..n][i] == ufs[i] && os[..n][i] == os[i];
        } else {
          assert ufs[n] !in ufs[..n];
        }
      }
    }
  }

  /** Every failed state's line is among the failure lines. */
  lemma {:induction false} FailureLinesMember(ufs: seq<string>, os: seq<GroupOutcome>)
    requires |ufs| == |os|
    ensures forall i :: 0 <= i < |ufs| && !os[i].success ==> ErrorLine(ufs[i], os[i]) in FailureLines(ufs, os)
    ensures |FailureLines(ufs, os)| + |Select(ufs, os, CreatedOutcome)| + |Select(ufs, os, UpdatedOutcome)| == |ufs|
  {
    if ufs != [] {
      var n := |ufs| - 1;
      FailureLinesMember(ufs[..n], os[..n]);
      forall i | 0 <= i < n && !os[i].success
        ensures ErrorLine(ufs[i], os[i]) in FailureLines(ufs, os)
      {
        assert ufs[..n][i] == ufs[i] && os[..n][i] == os[i];
      }
    }
  }

  /**
   * With each state configured once, every state lands in exactly the
   * list its own answer selects: created when its group was created,
   * updated when it was updated, and its failure line in errors when the
   * write failed; in the first two cases it is in neither other list.
   */
  lemma SeedRoutesEachState(groups: map<string, Group>, nextId: nat, states: seq<(string, string)>,
                            writeOk: string -> bool, i: nat)
    requires DistinctKeys(states)
    requires i < |states|
    ensures var rep := SeedAll(groups, nextId, states, writeOk).0;
      var o := Outcomes(groups, nextId, states, writeOk)[i];
      (states[i].0 in rep.created <==> o.success && o.created)
      && (states[i].0 in rep.updated <==> o.success && !o.created)
      && (!o.success ==> ErrorLine(states[i].0, o) in rep.errors)
  {
    SeedAllRoutes(groups, nextId, states, writeOk);
    var ufs, os := Keys(states), Outcomes(groups, nextId, states, writeOk);
    SelectMember(ufs, os, CreatedOutcome);
    SelectMember(ufs, os, UpdatedOutcome);
    FailureLinesMember(ufs, os);
    assert ufs[i] == states[i].0;
  }
}
