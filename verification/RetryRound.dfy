/** Finding the plans of failed results, and what a round of retry and merge does to the results of a run. */
module RetryRound {
  import opened Basics
  import opened Verdict
  import opened Lookup
  import opened Merge

  predicate PlanCarries(p: Plan, k: Key) {
    k in PlanKeys(p.identity)
  }

  /** The identity keys of every plan of a batch. */
  function AllKeys(plans: seq<Plan>): (keys: seq<seq<Key>>)
    ensures |keys| == |plans|
  {
    seq(|plans|, a requires 0 <= a < |plans| => PlanKeys(plans[a].identity))
  }

  function Rank(k: Key): nat {
    match k
    case ItemKey(_) => 0
    case TaskKey(_, _, _) => 1
    case ClientKey(_, _, _) => 2
    case NameKey(_, _, _) => 3
  }

  ghost predicate Rising(keys: seq<Key>, bound: nat) {
    Distinct(keys) && forall k :: k in keys ==> Rank(k) < bound
  }

  lemma OneKeyRises(keys: seq<Key>, present: bool, k: Key)
    requires Rising(keys, Rank(k))
    ensures Rising(keys + OneKey(present, k), Rank(k) + 1)
  {
  }

  lemma PlanKeysDistinct(i: Identity)
    ensures Distinct(PlanKeys(i))
  {
    var t := if i.taskId != "" then i.taskId else i.taskName;
    var item := OneKey(i.itemId != "", ItemKey(i.itemId));
    var task := OneKey(t != "", TaskKey(i.planId, i.device, t));
    var client := OneKey(i.clientTaskId != "", ClientKey(i.planId, i.device, i.clientTaskId));
    assert Rising(item, 1);
    OneKeyRises(item, t != "", TaskKey(i.planId, i.device, t));
    OneKeyRises(item + task, i.clientTaskId != "", ClientKey(i.planId, i.device, i.clientTaskId));
    OneKeyRises(item + task + client, i.taskName != "", NameKey(i.planId, i.device, i.taskName));
  }

  /** The lookup table of the last batch: a key that two plans carry leads to neither. */
  method RememberPlans(plans: seq<Plan>) returns (lookup: map<Key, Entry>)
    ensures IsTable(lookup, AllKeys(plans), |plans|)
  {
    forall a | 0 <= a < |plans| ensures Distinct(AllKeys(plans)[a]) {
      PlanKeysDistinct(plans[a].identity);
    }
    lookup := BuildTable(AllKeys(plans));
  }

  function PlanOf(r: Result, lookup: map<Key, Entry>): Option<nat> {
    FirstPlace(ResultKeys(r.identity), lookup)
  }

  /** The plan a result asks to run again. */
  function Wanted(r: Result, lookup: map<Key, Entry>): Option<nat> {
    if IsRetryableFailed(r) then PlanOf(r, lookup) else None
  }

  function AllWanted(results: seq<Result>, lookup: map<Key, Entry>): (wanted: seq<Option<nat>>)
    ensures |wanted| == |results|
  {
    seq(|results|, i requires 0 <= i < |results| => Wanted(results[i], lookup))
  }

  /** The plans to run again, by their places in the last batch, in the order of the failed results. */
  function Candidates(results: seq<Result>, plans: seq<Plan>, lookup: map<Key, Entry>): seq<nat> {
    Collected(AllWanted(results, lookup), AllKeys(plans))
  }

  /** A clone is a new plan, without an item id. */
  function Clone(p: Plan): Plan {
    p.(identity := p.identity.(itemId := ""), status := "PENDING", skipReason := "")
  }

  /** A clone is the plan before any run, without its item id. */
  lemma CloneIs(p: Plan)
    ensures Clone(p) == Plan(p.identity.(itemId := ""), p.protocol, p.retryCount, "PENDING", "", p.itemAttribute)
  {
  }

  method WantedBy(r: Result, lookup: map<Key, Entry>) returns (a: Option<nat>)
    ensures a == Wanted(r, lookup)
  {
    a := None;
    if IsRetryableFailed(r) {
      a := FindFirstPlace(ResultKeys(r.identity), lookup);
    }
  }

  method FindWanted(results: seq<Result>, lookup: map<Key, Entry>) returns (wanted: seq<Option<nat>>)
    ensures wanted == AllWanted(results, lookup)
  {
    wanted := [];
    var i := 0;
    while i < |results|
      invariant i <= |results| && |wanted| == i
      invariant forall j :: 0 <= j < i ==> wanted[j] == Wanted(results[j], lookup)
    {
      var a := WantedBy(results[i], lookup);
      wanted := wanted + [a];
      i := i + 1;
    }
  }

  /** Cloning hands the attribute `plan_item_id`, if there is one, to a constructor that does not take it. */
  predicate Clonable(p: Plan) {
    !p.itemAttribute
  }

  /** The clones of the chosen plans, or nothing when cloning one of them raises. */
  method FailedRetryCandidates(results: seq<Result>, plans: seq<Plan>, lookup: map<Key, Entry>)
    returns (clones: Option<seq<Plan>>)
    requires forall k :: k in lookup && lookup[k].Place? ==> lookup[k].a < |plans|
    ensures var chosen := Candidates(results, plans, lookup);
      && (forall i :: 0 <= i < |chosen| ==> chosen[i] < |plans|)
      && (clones.Some? <==> forall i :: 0 <= i < |chosen| ==> Clonable(plans[chosen[i]]))
      && (clones.Some? ==> |clones.value| == |chosen| && forall i :: 0 <= i < |chosen| ==> clones.value[i] == Clone(plans[chosen[i]]))
  {
    var wanted := FindWanted(results, lookup);
    var chosen := Collect(wanted, AllKeys(plans));
    forall j | 0 <= j < |chosen| ensures chosen[j] < |plans| {
      CollectedAreOwners(wanted, AllKeys(plans), chosen[j]);
    }
    clones := CloneAll(chosen, plans);
  }

  method CloneAll(chosen: seq<nat>, plans: seq<Plan>) returns (clones: Option<seq<Plan>>)
    requires forall i :: 0 <= i < |chosen| ==> chosen[i] < |plans|
    ensures clones.Some? <==> forall i :: 0 <= i < |chosen| ==> Clonable(plans[chosen[i]])
    ensures clones.Some? ==> |clones.value| == |chosen| && forall i :: 0 <= i < |chosen| ==> clones.value[i] == Clone(plans[chosen[i]])
  {
    var made: seq<Plan> := [];
    var i := 0;
    while i < |chosen|
      invariant i <= |chosen| && |made| == i
      invariant forall j :: 0 <= j < i ==> Clonable(plans[chosen[j]]) && made[j] == Clone(plans[chosen[j]])
    {
      if !Clonable(plans[chosen[i]]) {
        return None;
      }
      made := made + [Clone(plans[chosen[i]])];
      i := i + 1;
    }
    clones := Some(made);
  }

  // ----- a whole round -----

  /** Plans that can be told apart: distinct plan ids, named tasks, and no item id shared. */
  ghost predicate Identifiable(plans: seq<Plan>) {
    && (forall a :: 0 <= a < |plans| ==> plans[a].identity.taskName != "")
    && (forall a, b :: 0 <= a < b < |plans| ==>
          && plans[a].identity.planId != plans[b].identity.planId
          && (plans[a].identity.itemId != "" ==> plans[a].identity.itemId != plans[b].identity.itemId))
  }

  lemma KeysTellApart(plans: seq<Plan>, a: nat, b: nat, k: Key)
    requires Identifiable(plans) && a < |plans| && b < |plans| && PlanCarries(plans[a], k)
    ensures a == b || !PlanCarries(plans[b], k)
  {
    KeysSay(plans[a], k);
    if PlanCarries(plans[b], k) {
      KeysSay(plans[b], k);
    }
  }

  lemma KeysSay(p: Plan, k: Key)
    requires PlanCarries(p, k)
    ensures if k.ItemKey? then k.itemId == p.identity.itemId != "" else k.planId == p.identity.planId
  {
  }

  /** An executor copies the identity fields of the plan; the item id may be left out. */
  predicate FromPlan(r: Result, p: Plan) {
    r.identity == p.identity || r.identity == p.identity.(itemId := "")
  }

  /** A result's keys are keys of its plan, and they share the one by task name. */
  lemma KeysFollowPlan(r: Result, p: Plan)
    requires FromPlan(r, p) && p.identity.taskName != ""
    ensures forall k :: Merge.Carries(r, k) ==> PlanCarries(p, k)
    ensures var k := NameKey(p.identity.planId, p.identity.device, p.identity.taskName); Merge.Carries(r, k) && PlanCarries(p, k)
  {
  }

  /** Result `i` belongs to plan `owner[i]`. */
  ghost predicate Attributed(results: seq<Result>, owner: seq<nat>, plans: seq<Plan>) {
    |owner| == |results| && forall i :: 0 <= i < |results| ==> owner[i] < |plans| && FromPlan(results[i], plans[owner[i]])
  }

  /** And no plan has two failed ones. */
  ghost predicate OneFailedEach(results: seq<Result>, owner: seq<nat>)
    requires |owner| == |results|
  {
    forall h, i :: 0 <= h < i < |results| && owner[h] == owner[i] ==> !(IsFailed(results[h]) && IsFailed(results[i]))
  }

  lemma LookupFindsOwner(r: Result, a: nat, plans: seq<Plan>, lookup: map<Key, Entry>)
    requires Identifiable(plans) && IsTable(lookup, AllKeys(plans), |plans|) && a < |plans| && FromPlan(r, plans[a])
    ensures PlanOf(r, lookup) == Some(a)
  {
    KeysFollowPlan(r, plans[a]);
    var name := NameKey(plans[a].identity.planId, plans[a].identity.device, plans[a].identity.taskName);
    forall k | PlanCarries(plans[a], k) ensures EntryOf(AllKeys(plans), |plans|, k) == Place(a) {
      forall b | 0 <= b < |plans| && b != a ensures k !in AllKeys(plans)[b] { KeysTellApart(plans, a, b, k); }
      EntryIff(AllKeys(plans), |plans|, k, a);
    }
    assert EntryOf(AllKeys(plans), |plans|, name) == Place(a);
    FirstPlaceLeads(ResultKeys(r.identity), lookup);
  }

  /** For each result, its owner if it can be retried. */
  function WantedOwners(results: seq<Result>, owner: seq<nat>): (wanted: seq<Option<nat>>)
    requires |owner| == |results|
    ensures |wanted| == |results|
  {
    seq(|results|, i requires 0 <= i < |results| => if IsRetryableFailed(results[i]) then Some(owner[i]) else None)
  }

  /** The owners of the results that can be retried, in order. */
  function RetryOwners(results: seq<Result>, owner: seq<nat>): seq<nat>
    requires |owner| == |results|
  {
    Present(WantedOwners(results, owner))
  }

  lemma RetryOwnersIn(results: seq<Result>, owner: seq<nat>, a: nat)
    requires |owner| == |results|
    ensures a in RetryOwners(results, owner) <==> exists i :: 0 <= i < |results| && IsRetryableFailed(results[i]) && owner[i] == a
  {
    var wanted := WantedOwners(results, owner);
    PresentIff(wanted, a);
    if exists i :: 0 <= i < |results| && IsRetryableFailed(results[i]) && owner[i] == a {
      var i :| 0 <= i < |results| && IsRetryableFailed(results[i]) && owner[i] == a;
      assert wanted[i] == Some(a);
    }
  }

  lemma WantedAreOwners(results: seq<Result>, owner: seq<nat>, plans: seq<Plan>, lookup: map<Key, Entry>)
    requires Identifiable(plans) && IsTable(lookup, AllKeys(plans), |plans|) && Attributed(results, owner, plans)
    ensures AllWanted(results, lookup) == WantedOwners(results, owner)
  {
    forall i | 0 <= i < |results| ensures AllWanted(results, lookup)[i] == WantedOwners(results, owner)[i] {
      LookupFindsOwner(results[i], owner[i], plans, lookup);
    }
  }

  lemma KeysAreDisjoint(plans: seq<Plan>)
    requires Identifiable(plans)
    ensures var keys := AllKeys(plans);
      && (forall a, b, k :: 0 <= a < |keys| && 0 <= b < |keys| && a != b && k in keys[a] ==> k !in keys[b])
      && (forall a :: 0 <= a < |keys| ==> keys[a] != [])
  {
    var keys := AllKeys(plans);
    forall a, b, k | 0 <= a < |keys| && 0 <= b < |keys| && a != b && k in keys[a] ensures k !in keys[b] {
      KeysTellApart(plans, a, b, k);
    }
    forall a | 0 <= a < |plans| ensures keys[a] != [] {
      NamedPlansHaveKeys(plans[a]);
    }
  }

  /** Exactly the plans of the retryable failed results are run again, each once, in the order of the results. */
  lemma CandidatesAreTheFailedPlans(results: seq<Result>, owner: seq<nat>, plans: seq<Plan>, lookup: map<Key, Entry>)
    requires Identifiable(plans) && IsTable(lookup, AllKeys(plans), |plans|)
    requires Attributed(results, owner, plans) && OneFailedEach(results, owner)
    ensures Candidates(results, plans, lookup) == RetryOwners(results, owner)
  {
    WantedAreOwners(results, owner, plans, lookup);
    KeysAreDisjoint(plans);
    EverybodyIsCollected(WantedOwners(results, owner), AllKeys(plans));
  }

  lemma NamedPlansHaveKeys(p: Plan)
    requires p.identity.taskName != ""
    ensures PlanKeys(p.identity) != []
  {
  }

  /** The plan is one of those to run again. */
  ghost predicate Candidate(original: seq<Result>, owner: seq<nat>, plans: seq<Plan>, a: nat)
    requires |owner| == |original|
  {
    a < |plans| && a in RetryOwners(original, owner)
  }

  ghost predicate Serves(r: Result, original: seq<Result>, owner: seq<nat>, plans: seq<Plan>)
    requires |owner| == |original|
  {
    exists a: nat :: Candidate(original, owner, plans, a) && FromPlan(r, plans[a])
  }

  ghost predicate Served(retry: seq<Result>, p: Plan) {
    exists j :: 0 <= j < |retry| && FromPlan(retry[j], p)
  }

  /** The retry results of a round: each belongs to a candidate, and each candidate has at least one, in any order. */
  ghost predicate RetriesFor(retry: seq<Result>, original: seq<Result>, owner: seq<nat>, plans: seq<Plan>) {
    && Attributed(original, owner, plans) && OneFailedEach(original, owner)
    && (forall j :: 0 <= j < |retry| ==> Serves(retry[j], original, owner, plans))
    && (forall a: nat :: Candidate(original, owner, plans, a) ==> Served(retry, plans[a]))
  }

  lemma KeyOfPlan(r: Result, p: Plan, k: Key)
    requires FromPlan(r, p) && p.identity.taskName != "" && Merge.Carries(r, k)
    ensures PlanCarries(p, k)
  {
    KeysFollowPlan(r, p);
  }

  lemma SamePlan(r: Result, plans: seq<Plan>, a: nat, b: nat)
    requires Identifiable(plans) && a < |plans| && b < |plans| && FromPlan(r, plans[a]) && FromPlan(r, plans[b])
    ensures a == b
  {
  }

  lemma SharedKeyMeansSamePlan(r: Result, s: Result, plans: seq<Plan>, a: nat, b: nat, k: Key)
    requires Identifiable(plans) && a < |plans| && b < |plans| && FromPlan(r, plans[a]) && FromPlan(s, plans[b])
    requires Merge.Carries(r, k) && Merge.Carries(s, k)
    ensures a == b
  {
    KeyOfPlan(r, plans[a], k);
    KeyOfPlan(s, plans[b], k);
    KeysTellApart(plans, a, b, k);
  }

  /** Whose retry result this is. */
  lemma ServesWhom(retry: seq<Result>, original: seq<Result>, owner: seq<nat>, plans: seq<Plan>, j: nat) returns (b: nat)
    requires RetriesFor(retry, original, owner, plans) && j < |retry|
    ensures Candidate(original, owner, plans, b) && FromPlan(retry[j], plans[b])
  {
    assert Serves(retry[j], original, owner, plans);
    b :| Candidate(original, owner, plans, b) && FromPlan(retry[j], plans[b]);
  }

  /** Keys lead from a row to a retry result of the same plan only. */
  lemma KeysLeadToOwner(retry: seq<Result>, original: seq<Result>, owner: seq<nat>, plans: seq<Plan>, r: Result, a: nat, k: Key)
    requires Identifiable(plans) && RetriesFor(retry, original, owner, plans)
    requires a < |plans| && FromPlan(r, plans[a]) && Merge.Carries(r, k) && FirstWith(retry, k) < |retry|
    ensures FromPlan(retry[FirstWith(retry, k)], plans[a])
  {
    var j := FirstWith(retry, k);
    var b := ServesWhom(retry, original, owner, plans, j);
    SharedKeyMeansSamePlan(r, retry[j], plans, a, b, k);
  }

  lemma PickLeads(original: seq<Result>, retry: seq<Result>, i: nat)
    requires i < |original|
    ensures var p := Picks(original, retry)[i];
      p.Some? ==> IsFailed(original[i]) && Merge.Carries(original[i], p.value.key) && p.value.retry == FirstWith(retry, p.value.key) < |retry|
  {
    PickAt(original, retry, i);
  }

  /** Whatever is picked for a row is a retry result of the row's own plan. */
  lemma PickIsOwn(original: seq<Result>, owner: seq<nat>, retry: seq<Result>, plans: seq<Plan>, i: nat)
    requires Identifiable(plans) && RetriesFor(retry, original, owner, plans) && i < |original|
    ensures var p := Picks(original, retry)[i];
      p.Some? ==> p.value.retry < |retry| && FromPlan(retry[p.value.retry], plans[owner[i]])
  {
    PickLeads(original, retry, i);
    var p := Picks(original, retry)[i];
    if p.Some? {
      KeysLeadToOwner(retry, original, owner, plans, original[i], owner[i], p.value.key);
    }
  }

  lemma OwnersShareNoKey(original: seq<Result>, owner: seq<nat>, plans: seq<Plan>, h: nat, i: nat, k: Key)
    requires Identifiable(plans) && Attributed(original, owner, plans) && OneFailedEach(original, owner)
    requires h < i < |original| && IsFailed(original[h]) && IsFailed(original[i])
    ensures !(Merge.Carries(original[h], k) && Merge.Carries(original[i], k))
  {
    if Merge.Carries(original[h], k) && Merge.Carries(original[i], k) {
      SharedKeyMeansSamePlan(original[h], original[i], plans, owner[h], owner[i], k);
    }
  }

  lemma OwnersShareNoResult(original: seq<Result>, owner: seq<nat>, plans: seq<Plan>, h: nat, i: nat, r: Result)
    requires Identifiable(plans) && Attributed(original, owner, plans) && OneFailedEach(original, owner)
    requires h < i < |original| && IsFailed(original[h]) && IsFailed(original[i])
    ensures !(FromPlan(r, plans[owner[h]]) && FromPlan(r, plans[owner[i]]))
  {
    if FromPlan(r, plans[owner[h]]) && FromPlan(r, plans[owner[i]]) {
      SamePlan(r, plans, owner[h], owner[i]);
    }
  }

  lemma KeyNotTaken(original: seq<Result>, owner: seq<nat>, retry: seq<Result>, plans: seq<Plan>, i: nat, h: nat, k: Key)
    requires Identifiable(plans) && RetriesFor(retry, original, owner, plans)
    requires h < i < |original| && IsFailed(original[i]) && Merge.Carries(original[i], k)
    ensures var p := Picks(original, retry)[h]; p.Some? ==> p.value.key != k
  {
    PickLeads(original, retry, h);
    if Picks(original, retry)[h].Some? {
      OwnersShareNoKey(original, owner, plans, h, i, k);
    }
  }

  lemma ResultNotTaken(original: seq<Result>, owner: seq<nat>, retry: seq<Result>, plans: seq<Plan>, i: nat, h: nat, j: nat)
    requires Identifiable(plans) && RetriesFor(retry, original, owner, plans)
    requires h < i < |original| && IsFailed(original[i]) && j < |retry| && FromPlan(retry[j], plans[owner[i]])
    ensures var p := Picks(original, retry)[h]; p.Some? ==> p.value.retry != j
  {
    PickLeads(original, retry, h);
    if Picks(original, retry)[h].Some? {
      PickIsOwn(original, owner, retry, plans, h);
      OwnersShareNoResult(original, owner, plans, h, i, retry[j]);
    }
  }

  /** The retry result that a row's key leads to was not taken by an earlier row, under any key. */
  lemma NotTaken(original: seq<Result>, owner: seq<nat>, retry: seq<Result>, plans: seq<Plan>, i: nat, h: nat, k: Key)
    requires Identifiable(plans) && RetriesFor(retry, original, owner, plans)
    requires h < i < |original| && IsFailed(original[i]) && Merge.Carries(original[i], k) && FirstWith(retry, k) < |retry|
    ensures !Took(Picks(original, retry)[h], k, FirstWith(retry, k))
  {
    KeysLeadToOwner(retry, original, owner, plans, original[i], owner[i], k);
    KeyNotTaken(original, owner, retry, plans, i, h, k);
    ResultNotTaken(original, owner, retry, plans, i, h, FirstWith(retry, k));
  }

  /** A failed row whose plan was run again gets a pick. */
  lemma RetryableIsPicked(original: seq<Result>, owner: seq<nat>, retry: seq<Result>, plans: seq<Plan>, i: nat, j: nat)
    requires Identifiable(plans) && RetriesFor(retry, original, owner, plans)
    requires i < |original| && IsFailed(original[i]) && j < |retry| && FromPlan(retry[j], plans[owner[i]])
    ensures Picks(original, retry)[i].Some?
  {
    var p := plans[owner[i]];
    var k := NameKey(p.identity.planId, p.identity.device, p.identity.taskName);
    KeysFollowPlan(original[i], p);
    KeysFollowPlan(retry[j], p);
    if Picks(original, retry)[i].None? {
      MergeIsComplete(original, retry, i, k);
      var h :| 0 <= h < i && Took(Picks(original, retry)[h], k, FirstWith(retry, k));
      NotTaken(original, owner, retry, plans, i, h, k);
    }
  }

  lemma CandidateIff(original: seq<Result>, owner: seq<nat>, plans: seq<Plan>, i: nat)
    requires Attributed(original, owner, plans) && OneFailedEach(original, owner) && i < |original| && IsFailed(original[i])
    ensures Candidate(original, owner, plans, owner[i]) <==> IsRetryableFailed(original[i])
  {
    RetryOwnersIn(original, owner, owner[i]);
  }

  lemma OnlyCandidatesArePicked(original: seq<Result>, owner: seq<nat>, retry: seq<Result>, plans: seq<Plan>, i: nat)
    requires Identifiable(plans) && RetriesFor(retry, original, owner, plans) && i < |original|
    ensures Picks(original, retry)[i].Some? ==> Candidate(original, owner, plans, owner[i])
  {
    PickIsOwn(original, owner, retry, plans, i);
    var p := Picks(original, retry)[i];
    if p.Some? {
      var b := ServesWhom(retry, original, owner, plans, p.value.retry);
      SamePlan(retry[p.value.retry], plans, b, owner[i]);
    }
  }

  lemma CandidateIsReplaced(original: seq<Result>, owner: seq<nat>, retry: seq<Result>, plans: seq<Plan>, i: nat)
    requires Identifiable(plans) && RetriesFor(retry, original, owner, plans) && i < |original|
    requires IsRetryableFailed(original[i])
    ensures Picks(original, retry)[i].Some?
  {
    CandidateIff(original, owner, plans, i);
    assert Served(retry, plans[owner[i]]);
    var j :| 0 <= j < |retry| && FromPlan(retry[j], plans[owner[i]]);
    RetryableIsPicked(original, owner, retry, plans, i, j);
  }

  /**
   A whole round: run, collect the candidates, run their clones, merge. Every retryable failed position ends with a
   retry result of its own plan, and every other position with its original result.
   */
  lemma RoundReplacesExactlyTheFailed(original: seq<Result>, owner: seq<nat>, retry: seq<Result>, plans: seq<Plan>, i: nat)
    requires Identifiable(plans) && RetriesFor(retry, original, owner, plans) && i < |original|
    ensures if IsRetryableFailed(original[i])
      then exists j :: 0 <= j < |retry| && FromPlan(retry[j], plans[owner[i]]) && Merged(original, retry)[i] == retry[j]
      else Merged(original, retry)[i] == original[i]
  {
    PickIsOwn(original, owner, retry, plans, i);
    if IsRetryableFailed(original[i]) {
      CandidateIsReplaced(original, owner, retry, plans, i);
    } else {
      PickLeads(original, retry, i);
      OnlyCandidatesArePicked(original, owner, retry, plans, i);
      if IsFailed(original[i]) {
        CandidateIff(original, owner, plans, i);
      }
    }
  }

  // ----- two failed rows of one plan -----

  ghost predicate OfSome(r: Result, plans: seq<Plan>) {
    exists i :: 0 <= i < |plans| && FromPlan(r, plans[i])
  }

  /** Every row belongs to one of the plans. */
  ghost predicate OfPlans(rows: seq<Result>, plans: seq<Plan>) {
    forall j :: 0 <= j < |rows| ==> OfSome(rows[j], plans)
  }

  /** At most one row belongs to the plan. */
  ghost predicate AtMostOne(rows: seq<Result>, p: Plan) {
    forall i, j :: 0 <= i < |rows| && 0 <= j < |rows| && FromPlan(rows[i], p) && FromPlan(rows[j], p) ==> i == j
  }

  lemma SharingKeyIsOwn(rows: seq<Result>, plans: seq<Plan>, r: Result, a: nat, j: nat, k: Key)
    requires Identifiable(plans) && OfPlans(rows, plans) && a < |plans| && FromPlan(r, plans[a])
    requires j < |rows| && Merge.Carries(r, k) && Merge.Carries(rows[j], k)
    ensures FromPlan(rows[j], plans[a])
  {
    assert OfSome(rows[j], plans);
    var b :| 0 <= b < |plans| && FromPlan(rows[j], plans[b]);
    SharedKeyMeansSamePlan(r, rows[j], plans, a, b, k);
  }

  lemma PickIsOf(original: seq<Result>, retry: seq<Result>, plans: seq<Plan>, a: nat, i: nat)
    requires Identifiable(plans) && OfPlans(retry, plans) && a < |plans|
    requires i < |original| && FromPlan(original[i], plans[a])
    ensures var p := Picks(original, retry)[i]; p.Some? ==> p.value.retry < |retry| && FromPlan(retry[p.value.retry], plans[a])
  {
    PickLeads(original, retry, i);
    var p := Picks(original, retry)[i];
    if p.Some? {
      SharingKeyIsOwn(retry, plans, original[i], a, p.value.retry, p.value.key);
    }
  }

  /** A failed row without a pick lost the plan's retry result `r` to an earlier row. */
  lemma LostToEarlier(original: seq<Result>, retry: seq<Result>, plans: seq<Plan>, a: nat, h: nat, r: nat) returns (g: nat)
    requires Identifiable(plans) && OfPlans(retry, plans) && a < |plans| && AtMostOne(retry, plans[a])
    requires h < |original| && IsFailed(original[h]) && FromPlan(original[h], plans[a]) && Picks(original, retry)[h].None?
    requires r < |retry| && FromPlan(retry[r], plans[a])
    ensures g < h && Picks(original, retry)[g].Some? && Picks(original, retry)[g].value.retry == r
  {
    var k := NameKey(plans[a].identity.planId, plans[a].identity.device, plans[a].identity.taskName);
    KeysFollowPlan(original[h], plans[a]);
    KeysFollowPlan(retry[r], plans[a]);
    var j := FirstWith(retry, k);
    SharingKeyIsOwn(retry, plans, original[h], a, j, k);
    assert j == r;
    MergeIsComplete(original, retry, h, k);
    g :| 0 <= g < h && Took(Picks(original, retry)[g], k, j);
    PickLeads(original, retry, g);
  }

  /** When a plan was run again for one row only, the second of its failed rows is not replaced. */
  lemma SecondFailureStays(original: seq<Result>, retry: seq<Result>, plans: seq<Plan>, a: nat, h: nat, i: nat)
    requires Identifiable(plans) && OfPlans(retry, plans) && a < |plans| && AtMostOne(retry, plans[a])
    requires h < i < |original| && IsFailed(original[h]) && IsFailed(original[i])
    requires FromPlan(original[h], plans[a]) && FromPlan(original[i], plans[a])
    ensures Merged(original, retry)[i] == original[i]
  {
    var picks := Picks(original, retry);
    MergeIsSafe(original, retry);
    if picks[i].Some? {
      var r := picks[i].value.retry;
      PickIsOf(original, retry, plans, a, i);
      if picks[h].Some? {
        PickIsOf(original, retry, plans, a, h);
      } else {
        var g := LostToEarlier(original, retry, plans, a, h, r);
      }
    }
  }

  // ----- what the round owes each row -----

  /** The row a position ends with after a round. */
  ghost predicate EndsRight(original: Result, merged: Result, retry: seq<Result>, p: Plan) {
    if IsRetryableFailed(original) then exists j :: 0 <= j < |retry| && merged == retry[j] && FromPlan(retry[j], p)
    else merged == original
  }

  /** Every retryable failed row ends with a retry result of its plan, every other row as it is. */
  ghost predicate RoundEndsRight(original: seq<Result>, retry: seq<Result>, plans: seq<Plan>) {
    forall i, a :: 0 <= i < |original| && 0 <= a < |plans| && FromPlan(original[i], plans[a]) ==>
      EndsRight(original[i], Merged(original, retry)[i], retry, plans[a])
  }

  lemma RoundIsRight(original: seq<Result>, owner: seq<nat>, retry: seq<Result>, plans: seq<Plan>)
    requires Identifiable(plans) && RetriesFor(retry, original, owner, plans)
    ensures RoundEndsRight(original, retry, plans)
  {
    forall i, a | 0 <= i < |original| && 0 <= a < |plans| && FromPlan(original[i], plans[a])
      ensures EndsRight(original[i], Merged(original, retry)[i], retry, plans[a])
    {
      SamePlan(original[i], plans, a, owner[i]);
      RoundReplacesExactlyTheFailed(original, owner, retry, plans, i);
    }
  }
}
