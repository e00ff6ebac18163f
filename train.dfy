/**
 * The bookkeeping of the training script: when a checkpoint is saved and
 * old ones pruned, which checkpoint directories the pruning deletes, the
 * optimizer's two parameter groups, and the number of update steps per
 * epoch. The tensors, the directory listing and the deletion itself are
 * outside the model; the listing is a parameter.
 */
module Train {
  import opened Wrappers
  import opened Text

  /** `save_steps and completed_steps % save_steps == 0`: an unset or zero setting never saves. */
  predicate ShouldSave(saveSteps: Option<int>, completedSteps: int)
  {
    saveSteps.Some? && saveSteps.value != 0 && completedSteps % saveSteps.value == 0
  }

  /** Pruning runs after a save, and only when `save_total_limit` is set and not zero. */
  predicate ShouldPrune(saveSteps: Option<int>, saveTotalLimit: Option<int>, completedSteps: int)
  {
    ShouldSave(saveSteps, completedSteps) && saveTotalLimit.Some? && saveTotalLimit.value != 0
  }

  lemma PruneOnlyAfterSave(saveSteps: Option<int>, saveTotalLimit: Option<int>, completedSteps: int)
    ensures ShouldPrune(saveSteps, saveTotalLimit, completedSteps) ==>
      saveSteps.Some? && saveSteps.value != 0 && completedSteps % saveSteps.value == 0
    ensures saveTotalLimit.None? || saveTotalLimit == Some(0) ==> !ShouldPrune(saveSteps, saveTotalLimit, completedSteps)
  {
  }

  const CheckpointPrefix: string := "checkpoint-"

  /** The name of the directory saved at a step. */
  function CheckpointName(completedSteps: nat): (name: string)
    ensures StartsWith(name, CheckpointPrefix)
  {
    var name := CheckpointPrefix + NatToString(completedSteps);
    assert name[..|CheckpointPrefix|] == CheckpointPrefix;
    name
  }

  /** The directory entries whose names start with `checkpoint-`, in listing order. */
  function Checkpoints(listing: seq<string>): (r: seq<string>)
    ensures forall k :: 0 <= k < |r| ==> StartsWith(r[k], CheckpointPrefix)
    ensures forall x :: x in r <==> x in listing && StartsWith(x, CheckpointPrefix)
  {
    if listing == [] then []
    else
      var init := Checkpoints(listing[..|listing| - 1]);
      assert listing == listing[..|listing| - 1] + [Last(listing)];
      if StartsWith(Last(listing), CheckpointPrefix) then init + [Last(listing)] else init
  }

  /** `x.split("-")[1]`; every checkpoint name has that piece. */
  function NumberPiece(name: string): string
  {
    var pieces := Split(name, "-");
    if |pieces| >= 2 then pieces[1] else ""
  }

  /** The sort key `int(x.split("-")[1])`, if the piece parses. */
  function Number(name: string): Option<int>
  {
    ParseInt(NumberPiece(name))
  }

  /** A name `checkpoint-<rest>` splits into `checkpoint` and the pieces of `rest`. */
  lemma CheckpointPieces(name: string)
    requires StartsWith(name, CheckpointPrefix)
    ensures Split(name, "-") == ["checkpoint"] + Split(name[|CheckpointPrefix|..], "-")
    ensures NumberPiece(name) == Split(name[|CheckpointPrefix|..], "-")[0]
  {
    var head := "checkpoint";
    var tail := name[|head|..];
    assert name == head + tail && StartsWith(tail, "-") by {
      assert name[..|CheckpointPrefix|] == CheckpointPrefix;
    }
    NoDashInHead();
    FindAfterFreeHead(head, tail, "-");
    SplitUnfold(name, "-", |head|);
    assert name[..|head|] == head;
  }

  lemma NoDashInHead()
    ensures !Contains("checkpoint", "-")
  {
    var head := "checkpoint";
    assert forall i :: 0 <= i < |head| ==> head[i] != '-';
    CharAbsent(head, '-');
  }

  /** The number after the first dash, when every name has one. */
  function Key(name: string): int
  {
    match Number(name)
    case Some(n) => n
    case None => 0
  }

  /** Every name has a number; otherwise `int` raises `ValueError` and training stops. */
  predicate AllNumbered(names: seq<string>)
  {
    forall k :: 0 <= k < |names| ==> Number(names[k]).Some?
  }

  predicate SortedBy(s: seq<string>, key: string -> int)
  {
    forall i, j :: 0 <= i < j < |s| ==> key(s[i]) <= key(s[j])
  }

  /** Inserts `x` before the first name whose key is not smaller, which keeps an insertion sort stable. */
  function Insert(x: string, s: seq<string>, key: string -> int): (r: seq<string>)
    ensures multiset(r) == multiset(s) + multiset{x}
    ensures |r| == |s| + 1
  {
    if s == [] then [x]
    else if key(x) <= key(s[0]) then [x] + s
    else
      assert s == [s[0]] + s[1..];
      [s[0]] + Insert(x, s[1..], key)
  }

  lemma {:induction false} InsertSorted(x: string, s: seq<string>, key: string -> int)
    requires SortedBy(s, key)
    ensures SortedBy(Insert(x, s, key), key)
  {
    if s == [] {
      assert Insert(x, s, key) == [x];
    } else if key(x) <= key(s[0]) {
      SortedFromHead(s, key);
      ConsSorted(x, s, key);
    } else {
      InsertSorted(x, s[1..], key);
      SortedFromHead(s, key);
      InsertBound(x, s[1..], key, key(s[0]));
      ConsSorted(s[0], Insert(x, s[1..], key), key);
    }
  }

  /** In a sorted list no key is below the first one, and the tail is sorted. */
  lemma SortedFromHead(s: seq<string>, key: string -> int)
    requires s != [] && SortedBy(s, key)
    ensures forall k :: 0 <= k < |s| ==> key(s[k]) >= key(s[0])
    ensures forall k :: 0 <= k < |s[1..]| ==> key(s[1..][k]) >= key(s[0])
    ensures SortedBy(s[1..], key)
  {
    forall k | 0 <= k < |s[1..]|
      ensures key(s[1..][k]) >= key(s[0])
    {
      assert s[1..][k] == s[k + 1];
    }
  }

  /** A head whose key is at most every key of a sorted tail makes a sorted list. */
  lemma ConsSorted(h: string, rest: seq<string>, key: string -> int)
    requires SortedBy(rest, key) && forall k :: 0 <= k < |rest| ==> key(rest[k]) >= key(h)
    ensures SortedBy([h] + rest, key)
  {
    var r := [h] + rest;
    forall i, j | 0 <= i < j < |r|
      ensures key(r[i]) <= key(r[j])
    {
      assert r[j] == rest[j - 1];
      if i > 0 {
        assert r[i] == rest[i - 1];
      }
    }
  }

  /** Inserting into names whose keys are all at least `b` a name whose key is at least `b` keeps that bound. */
  lemma {:induction false} InsertBound(x: string, s: seq<string>, key: string -> int, b: int)
    requires key(x) >= b && forall k :: 0 <= k < |s| ==> key(s[k]) >= b
    ensures forall k :: 0 <= k < |Insert(x, s, key)| ==> key(Insert(x, s, key)[k]) >= b
  {
    if s == [] {
      assert Insert(x, s, key) == [x];
    } else if key(x) <= key(s[0]) {
      ConsBound(x, s, key, b);
    } else {
      forall k | 0 <= k < |s[1..]|
        ensures key(s[1..][k]) >= b
      {
        assert s[1..][k] == s[k + 1];
      }
      InsertBound(x, s[1..], key, b);
      ConsBound(s[0], Insert(x, s[1..], key), key, b);
    }
  }

  lemma ConsBound(h: string, rest: seq<string>, key: string -> int, b: int)
    requires key(h) >= b && forall k :: 0 <= k < |rest| ==> key(rest[k]) >= b
    ensures forall k :: 0 <= k < |[h] + rest| ==> key(([h] + rest)[k]) >= b
  {
    forall k | 0 < k < |[h] + rest|
      ensures key(([h] + rest)[k]) >= b
    {
      assert ([h] + rest)[k] == rest[k - 1];
    }
  }

  /** `sorted(checkpoints, key=...)`, an insertion sort. */
  function SortBy(s: seq<string>, key: string -> int): (r: seq<string>)
    ensures multiset(r) == multiset(s) && |r| == |s|
  {
    if s == [] then []
    else
      assert s == [s[0]] + s[1..];
      Insert(s[0], SortBy(s[1..], key), key)
  }

  lemma {:induction false} SortBySorted(s: seq<string>, key: string -> int)
    ensures SortedBy(SortBy(s, key), key)
  {
    if s != [] {
      SortBySorted(s[1..], key);
      InsertSorted(s[0], SortBy(s[1..], key), key);
    }
  }

  /** `checkpoints[:len(checkpoints) - limit]` when there are more than `limit`, else nothing. */
  function ToRemove(sorted: seq<string>, limit: int): (r: seq<string>)
    ensures |sorted| <= limit ==> r == []
    ensures 0 <= limit < |sorted| ==> r == sorted[..|sorted| - limit]
    ensures limit < 0 ==> r == sorted
  {
    if |sorted| > limit then
      var n := |sorted| - limit;
      if n <= |sorted| then sorted[..n] else sorted
    else []
  }

  /** The pruning loop: every directory `ToRemove` names is deleted, oldest first. */
  method DeleteOldest(sorted: seq<string>, limit: int) returns (deleted: seq<string>)
    ensures deleted == ToRemove(sorted, limit)
  {
    deleted := [];
    if |sorted| > limit {
      var n := |sorted| - limit;
      var toRemove := if n <= |sorted| then sorted[..n] else sorted;
      for i := 0 to |toRemove|
        invariant deleted == toRemove[..i]
      {
        deleted := deleted + [toRemove[i]];
      }
      assert toRemove[..|toRemove|] == toRemove;
    }
  }

  /** The checkpoints deleted for a listing: `None` when a checkpoint name has no number. */
  function Retention(listing: seq<string>, limit: int): (r: Option<seq<string>>)
    ensures r.None? <==> !AllNumbered(Checkpoints(listing))
  {
    var checkpoints := Checkpoints(listing);
    if AllNumbered(checkpoints) then Some(ToRemove(SortBy(checkpoints, Key), limit)) else None
  }

  /** The deletions at one step: `Some([])` when no pruning runs. */
  method PruneAtStep(saveSteps: Option<int>, saveTotalLimit: Option<int>, completedSteps: int, listing: seq<string>)
    returns (deleted: Option<seq<string>>)
    ensures !ShouldPrune(saveSteps, saveTotalLimit, completedSteps) ==> deleted == Some([])
    ensures ShouldPrune(saveSteps, saveTotalLimit, completedSteps) ==> deleted == Retention(listing, saveTotalLimit.value)
  {
    if !ShouldPrune(saveSteps, saveTotalLimit, completedSteps) {
      return Some([]);
    }
    var checkpoints := Checkpoints(listing);
    if !AllNumbered(checkpoints) {
      return None;
    }
    var removed := DeleteOldest(SortBy(checkpoints, Key), saveTotalLimit.value);
    deleted := Some(removed);
  }

  /** Removing a prefix of a sorted list removes nothing ranked above what stays. */
  lemma ToRemoveOldest(sorted: seq<string>, limit: int, key: string -> int)
    requires limit > 0 && SortedBy(sorted, key)
    ensures var removed := ToRemove(sorted, limit);
      var kept := sorted[|removed|..];
      && |removed| == (if |sorted| > limit then |sorted| - limit else 0)
      && |kept| == (if |sorted| > limit then limit else |sorted|)
      && removed + kept == sorted
      && (forall i, j :: 0 <= i < |removed| && 0 <= j < |kept| ==> key(removed[i]) <= key(kept[j]))
  {
    var removed := ToRemove(sorted, limit);
    var kept := sorted[|removed|..];
    assert sorted[..|removed|] == removed;
    forall i, j | 0 <= i < |removed| && 0 <= j < |kept|
      ensures key(removed[i]) <= key(kept[j])
    {
      assert removed[i] == sorted[i] && kept[j] == sorted[|removed| + j];
    }
  }

  /**
   * Pruning with a positive limit keeps the newest `limit` checkpoints: it
   * deletes exactly `len - limit` of them when there are more and none
   * otherwise, and what it deletes and what it keeps are all the checkpoints.
   */
  lemma RetentionKeepsNewest(listing: seq<string>, limit: int)
    requires limit > 0 && AllNumbered(Checkpoints(listing))
    ensures var checkpoints := Checkpoints(listing);
      var sorted := SortBy(checkpoints, Key);
      var removed := Retention(listing, limit).value;
      var kept := sorted[|removed|..];
      && |removed| == (if |checkpoints| > limit then |checkpoints| - limit else 0)
      && |kept| == (if |checkpoints| > limit then limit else |checkpoints|)
      && multiset(removed + kept) == multiset(checkpoints)
  {
    var sorted := SortBy(Checkpoints(listing), Key);
    SortBySorted(Checkpoints(listing), Key);
    ToRemoveOldest(sorted, limit, Key);
  }

  /** No deleted checkpoint is numbered above one that is kept. */
  lemma RetentionDeletesOldest(listing: seq<string>, limit: int)
    requires limit > 0 && AllNumbered(Checkpoints(listing))
    ensures var sorted := SortBy(Checkpoints(listing), Key);
      var removed := Retention(listing, limit).value;
      var kept := sorted[|removed|..];
      forall i, j :: 0 <= i < |removed| && 0 <= j < |kept| ==> Key(removed[i]) <= Key(kept[j])
  {
    var sorted := SortBy(Checkpoints(listing), Key);
    SortBySorted(Checkpoints(listing), Key);
    ToRemoveOldest(sorted, limit, Key);
  }

  /** Every name whose path is handed to `rm -rf` is a `checkpoint-...` entry of the listing. */
  lemma RetentionDeletesCheckpoints(listing: seq<string>, limit: int, x: string)
    requires Retention(listing, limit).Some?
    requires x in Retention(listing, limit).value
    ensures x in listing && StartsWith(x, CheckpointPrefix)
  {
    var checkpoints := Checkpoints(listing);
    var sorted := SortBy(checkpoints, Key);
    assert Retention(listing, limit).value == ToRemove(sorted, limit);
    RemovedFromSorted(sorted, limit, x);
    SortedFrom(checkpoints, x);
  }

  lemma RemovedFromSorted(sorted: seq<string>, limit: int, x: string)
    requires x in ToRemove(sorted, limit)
    ensures x in sorted
  {
    var removed := ToRemove(sorted, limit);
    var i :| 0 <= i < |removed| && removed[i] == x;
    assert removed == sorted[..|removed|];
    assert sorted[i] == x;
  }

  lemma SortedFrom(s: seq<string>, x: string)
    requires x in SortBy(s, Key)
    ensures x in s
  {
    assert x in multiset(SortBy(s, Key));
  }

  /** The optimizer's parameter groups: decayed, and exempt from decay. */
  datatype Group<P> = Group(params: seq<P>, weightDecay: real)

  /** The parameter names never decayed contain one of these. */
  predicate NoDecay(name: string)
  {
    Contains(name, "bias") || Contains(name, "LayerNorm.weight")
  }

  /** The parameters whose names have the given `NoDecay` value, in order. */
  function Having<P>(named: seq<(string, P)>, exempt: bool): (r: seq<P>)
    ensures |r| <= |named|
  {
    if named == [] then []
    else
      var init := Having(named[..|named| - 1], exempt);
      if NoDecay(Last(named).0) == exempt then init + [Last(named).1] else init
  }

  /** `optimizer_grouped_parameters`. */
  function ParameterGroups<P>(named: seq<(string, P)>, weightDecay: real): (groups: seq<Group<P>>)
    ensures |groups| == 2
    ensures groups[0].weightDecay == weightDecay && groups[1].weightDecay == 0.0
  {
    [Group(Having(named, false), weightDecay), Group(Having(named, true), 0.0)]
  }

  /** Every named parameter is in exactly one of the two groups. */
  lemma {:induction false} GroupsPartition<P>(named: seq<(string, P)>, weightDecay: real)
    ensures var groups := ParameterGroups(named, weightDecay);
      |groups[0].params| + |groups[1].params| == |named|
  {
    if named != [] {
      GroupsPartition(named[..|named| - 1], weightDecay);
    }
  }

  /** A parameter is in the exempt group exactly when its name names a bias or a layer-norm weight. */
  lemma {:induction false} GroupMembers<P>(named: seq<(string, P)>, exempt: bool, p: P)
    ensures p in Having(named, exempt) <==> exists k :: 0 <= k < |named| && named[k].1 == p && NoDecay(named[k].0) == exempt
  {
    if named != [] {
      var init := named[..|named| - 1];
      GroupMembers(init, exempt, p);
      assert named == init + [Last(named)];
      if exists k :: 0 <= k < |named| && named[k].1 == p && NoDecay(named[k].0) == exempt {
        var k :| 0 <= k < |named| && named[k].1 == p && NoDecay(named[k].0) == exempt;
        if k < |init| {
          assert init[k] == named[k];
        }
      }
      if exists k :: 0 <= k < |init| && init[k].1 == p && NoDecay(init[k].0) == exempt {
        var k :| 0 <= k < |init| && init[k].1 == p && NoDecay(init[k].0) == exempt;
        assert named[k] == init[k];
      }
    }
  }

  /**
   * `math.ceil(len(train_dataloader) / gradient_accumulation_steps)`; a zero
   * accumulation setting raises `ZeroDivisionError` (`None`).
   */
  function UpdateStepsPerEpoch(batches: nat, accumulation: int): (r: Option<int>)
    ensures r.None? <==> accumulation == 0
    ensures accumulation > 0 ==> r.value * accumulation >= batches && (r.value - 1) * accumulation < batches
    ensures accumulation > 0 ==> r.value >= 0
  {
    if accumulation == 0 then None
    else if accumulation > 0 then
      var q := (batches + accumulation - 1) / accumulation;
      var rem := (batches + accumulation - 1) % accumulation;
      assert batches + accumulation - 1 == q * accumulation + rem;
      assert (q - 1) * accumulation == q * accumulation - accumulation;
      Some(q)
    else Some(-(batches / -accumulation))
  }

  /** With one accumulation step, every batch is an update. */
  lemma OneStepPerBatch(batches: nat)
    ensures UpdateStepsPerEpoch(batches, 1) == Some(batches)
  {
  }
}
