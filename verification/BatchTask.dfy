/** One task of a batch: BatchExecutor._execute_single, tools/vivado_core/batch.py:649-892.
    What the task meets is given from outside: the cancel event as seen at each check, whether
    a session could be had, and how each operation ends. */
module BatchTask {

  datatype Ending =
    | Succeeds
    | Fails     // the operation returned success=False
    | Raises    // the operation raised

  /** One entry of op_results. */
  datatype Record =
    | Ran(op: string, success: bool)
    | Raised(op: string)
    | Aborted(op: string)      // skipped after a failed operation
    | NotStarted(op: string)   // skipped after a cancel

  datatype TaskResult = TaskResult(taskName: string, success: bool, operations: seq<Record>, error: string, expectedFail: bool)

  const CANCEL_MARK := "Cancelled"
  const CANCELLED := CANCEL_MARK + " by fail-fast"
  const OPS_FAILED := "One or more operations failed"
  const NO_ERROR := ""

  /** The cancel event is never cleared. */
  ghost predicate OnceSetStays(cancel: nat -> bool) {
    forall i, j :: 0 <= i <= j && cancel(i) ==> cancel(j)
  }

  /** Operation i starts and succeeds: check number i + 1, made before it, finds no cancel. */
  predicate Passes(cancel: nat -> bool, ending: nat -> Ending, i: nat) {
    !cancel(i + 1) && ending(i) == Succeeds
  }

  /** The operation at which the task stops: the first that does not pass, or |ops|. */
  function StopAt(ops: seq<string>, cancel: nat -> bool, ending: nat -> Ending, i: nat): (k: nat)
    requires i <= |ops|
    ensures i <= k <= |ops|
    ensures forall j :: i <= j < k ==> Passes(cancel, ending, j)
    ensures k < |ops| ==> !Passes(cancel, ending, k)
    decreases |ops| - i
  {
    if i == |ops| || !Passes(cancel, ending, i) then i else StopAt(ops, cancel, ending, i + 1)
  }

  function FirstIndex(ops: seq<string>, op: string): (k: nat)
    requires op in ops
    ensures k < |ops| && ops[k] == op && op !in ops[..k]
  {
    if ops[0] == op then 0 else 1 + FirstIndex(ops[1..], op)
  }

  function AllRan(ops: seq<string>): (r: seq<Record>)
    ensures |r| == |ops|
  {
    seq(|ops|, i requires 0 <= i < |ops| => Ran(ops[i], true))
  }

  function AllAborted(ops: seq<string>): (r: seq<Record>)
    ensures |r| == |ops|
  {
    seq(|ops|, i requires 0 <= i < |ops| => Aborted(ops[i]))
  }

  function AllNotStarted(ops: seq<string>): (r: seq<Record>)
    ensures |r| == |ops|
  {
    seq(|ops|, i requires 0 <= i < |ops| => NotStarted(ops[i]))
  }

  /** The entries after the successful ones: the code looks the failed operation up by name,
      so with a repeated operation the abort entries start after its first occurrence. */
  function Tail(ops: seq<string>, cancel: nat -> bool, ending: nat -> Ending, k: nat): seq<Record>
    requires k <= |ops|
  {
    if k == |ops| then []
    else if cancel(k + 1) then AllNotStarted(ops[k..])
    else if ending(k) == Raises then [Raised(ops[k])]
    else [Ran(ops[k], false)] + AllAborted(ops[FirstIndex(ops, ops[k]) + 1..])
  }

  /** Operations that actually started, in order. */
  function Started(records: seq<Record>): seq<Record> {
    if records == [] then []
    else (if records[0].Ran? || records[0].Raised? then [records[0]] else []) + Started(records[1..])
  }

  lemma {:induction false} StartedAppend(a: seq<Record>, b: seq<Record>)
    ensures Started(a + b) == Started(a) + Started(b)
  {
    if a == [] {
      assert a + b == b;
    } else {
      assert (a + b)[0] == a[0] && (a + b)[1..] == a[1..] + b;
      StartedAppend(a[1..], b);
      var first := if a[0].Ran? || a[0].Raised? then [a[0]] else [];
      assert first + (Started(a[1..]) + Started(b)) == (first + Started(a[1..])) + Started(b);
    }
  }

  lemma {:induction false} AllStarted(r: seq<Record>)
    requires forall i :: 0 <= i < |r| ==> r[i].Ran? || r[i].Raised?
    ensures Started(r) == r
  {
    if r != [] {
      AllStarted(r[1..]);
    }
  }

  lemma {:induction false} NoneStarted(r: seq<Record>)
    requires forall i :: 0 <= i < |r| ==> r[i].Aborted? || r[i].NotStarted?
    ensures Started(r) == []
  {
    if r != [] {
      NoneStarted(r[1..]);
    }
  }

  /** What a task that got a session records. */
  function Records(ops: seq<string>, cancel: nat -> bool, ending: nat -> Ending): seq<Record> {
    var k := StopAt(ops, cancel, ending, 0);
    AllRan(ops[..k]) + Tail(ops, cancel, ending, k)
  }

  /** No check up to the one before operation i found the cancel event set. */
  predicate Uncancelled(cancel: nat -> bool, i: nat) {
    forall j :: 0 <= j <= i + 1 ==> !cancel(j)
  }

  /** The last operation that starts, when it does not succeed. */
  function LastStarted(ops: seq<string>, cancel: nat -> bool, ending: nat -> Ending, k: nat): seq<Record>
    requires k <= |ops|
  {
    if k == |ops| || cancel(k + 1) then []
    else [if ending(k) == Raises then Raised(ops[k]) else Ran(ops[k], false)]
  }

  lemma StartedIs(ops: seq<string>, cancel: nat -> bool, ending: nat -> Ending)
    ensures var k := StopAt(ops, cancel, ending, 0);
            Started(Records(ops, cancel, ending)) == AllRan(ops[..k]) + LastStarted(ops, cancel, ending, k)
  {
    var k := StopAt(ops, cancel, ending, 0);
    var head, tail := AllRan(ops[..k]), Tail(ops, cancel, ending, k);
    AllStarted(head);
    StartedAppend(head, tail);
    if k < |ops| {
      if cancel(k + 1) {
        NoneStarted(tail);
      } else if ending(k) == Raises {
        AllStarted(tail);
      } else {
        hide Started;
        var rest := AllAborted(ops[FirstIndex(ops, ops[k]) + 1..]);
        NoneStarted(rest);
        StartedAppend([Ran(ops[k], false)], rest);
        AllStarted([Ran(ops[k], false)]);
      }
    }
  }

  /** For every operation list, with or without repeats: the operations that started are a
      prefix of it; all of them but perhaps the last succeeded; none started at a check that
      found the cancel event set, nor after one; and the task succeeds exactly when all
      operations ran and succeeded. */
  lemma StartedIsPrefix(ops: seq<string>, cancel: nat -> bool, ending: nat -> Ending)
    requires OnceSetStays(cancel) && !cancel(0)
    ensures var st := Started(Records(ops, cancel, ending));
            && |st| <= |ops| && (forall i :: 0 <= i < |st| ==> st[i].op == ops[i])
            && (forall i :: 0 <= i < |st| - 1 ==> st[i] == Ran(ops[i], true))
            && (forall i :: 0 <= i < |st| ==> Uncancelled(cancel, i))
            && (StopAt(ops, cancel, ending, 0) == |ops| <==>
                |st| == |ops| && forall i :: 0 <= i < |st| ==> st[i] == Ran(ops[i], true))
  {
    hide Started, Records;
    StartedIs(ops, cancel, ending);
    var k := StopAt(ops, cancel, ending, 0);
    forall i | 0 <= i < k
      ensures Uncancelled(cancel, i)
    {
      assert Passes(cancel, ending, i);
    }
    if k < |ops| && !cancel(k + 1) {
      var st := Started(Records(ops, cancel, ending));
      assert st[k] == LastStarted(ops, cancel, ending, k)[0] != Ran(ops[k], true);
    }
  }

  ghost predicate Distinct(ops: seq<string>) {
    forall i, j :: 0 <= i < j < |ops| ==> ops[i] != ops[j]
  }

  /** The entries are those of the operations that started and, unless the last of these
      raised, one for each of the others in turn: aborted after a failure, otherwise not
      started. */
  ghost predicate OneEntryEach(rs: seq<Record>, ops: seq<string>, ending: nat -> Ending) {
    var n := |Started(rs)|;
    && n <= |rs| && rs[..n] == Started(rs)
    && |rs| == (if n > 0 && ending(n - 1) == Raises then n else |ops|)
    && forall i :: n <= i < |rs| ==>
         i < |ops| && rs[i] == if n > 0 && ending(n - 1) == Fails then Aborted(ops[i]) else NotStarted(ops[i])
  }

  /** With distinct operations every one of the list has exactly one entry, in its place,
      unless one raised. */
  lemma RecordCount(ops: seq<string>, cancel: nat -> bool, ending: nat -> Ending)
    requires Distinct(ops)
    ensures OneEntryEach(Records(ops, cancel, ending), ops, ending)
  {
    var k, rs := StopAt(ops, cancel, ending, 0), Records(ops, cancel, ending);
    RecordsAfter(ops, cancel, ending);
    assert k > 0 ==> Passes(cancel, ending, k - 1);
    assert k < |ops| ==> !Passes(cancel, ending, k);
    hide Started, Records, StopAt, Distinct, OneEntryEach, Follow, AllNotStarted, AllAborted;
    if k < |ops| && cancel(k + 1) {
      NotStartedFollow(ops, k);
      EntriesAfter(rs, AllNotStarted(ops[k..]), ops, ending);
    } else if k < |ops| && ending(k) == Fails {
      FailedAt(ops, k);
      AbortedFollow(ops, k + 1);
      EntriesAfter(rs, AllAborted(ops[k + 1..]), ops, ending);
    } else {
      NothingFollows(ops);
      EntriesAfter(rs, [], ops, ending);
    }
  }

  /** What comes after the entries of the operations that started. */
  lemma RecordsAfter(ops: seq<string>, cancel: nat -> bool, ending: nat -> Ending)
    ensures var k, rs := StopAt(ops, cancel, ending, 0), Records(ops, cancel, ending);
            var st := Started(rs);
            if k == |ops| then |st| == k && rs == st + []
            else if cancel(k + 1) then |st| == k && rs == st + AllNotStarted(ops[k..])
            else if ending(k) == Raises then |st| == k + 1 && rs == st + []
            else |st| == k + 1 && rs == st + AllAborted(ops[FirstIndex(ops, ops[k]) + 1..])
  {
    hide Started, StopAt, AllRan, AllNotStarted, AllAborted;
    StartedIs(ops, cancel, ending);
  }

  /** Entries for the operations from number n on, none of which started. */
  ghost predicate Follow(rest: seq<Record>, n: nat, ops: seq<string>, aborted: bool) {
    n + |rest| == |ops| &&
    forall i :: n <= i < |ops| ==> rest[i - n] == if aborted then Aborted(ops[i]) else NotStarted(ops[i])
  }

  lemma NotStartedFollow(ops: seq<string>, n: nat)
    requires n <= |ops|
    ensures Follow(AllNotStarted(ops[n..]), n, ops, false)
  {
  }

  lemma AbortedFollow(ops: seq<string>, n: nat)
    requires n <= |ops|
    ensures Follow(AllAborted(ops[n..]), n, ops, true)
  {
  }

  lemma NothingFollows(ops: seq<string>)
    ensures forall aborted: bool :: Follow([], |ops|, ops, aborted)
  {
  }

  lemma EntriesAfter(rs: seq<Record>, rest: seq<Record>, ops: seq<string>, ending: nat -> Ending)
    requires |Started(rs)| <= |ops| && rs == Started(rs) + rest
    requires var n := |Started(rs)|;
             if n > 0 && ending(n - 1) == Raises then rest == [] else Follow(rest, n, ops, n > 0 && ending(n - 1) == Fails)
    ensures OneEntryEach(rs, ops, ending)
  {
    hide Started;
  }

  lemma FailedAt(ops: seq<string>, k: nat)
    requires Distinct(ops) && k < |ops|
    ensures FirstIndex(ops, ops[k]) == k
  {
  }

  /** What a task returns. */
  function SingleResult(taskName: string, ops: seq<string>, cancel: nat -> bool, sessionError: string,
                        ending: nat -> Ending, expectedFail: bool): TaskResult {
    if cancel(0) then TaskResult(taskName, false, [], CANCELLED, false)
    else if sessionError != NO_ERROR then TaskResult(taskName, false, [], sessionError, false)
    else
      var ok := StopAt(ops, cancel, ending, 0) == |ops|;
      TaskResult(taskName, ok, Records(ops, cancel, ending), if ok then NO_ERROR else OPS_FAILED, expectedFail)
  }

  /** Operation i was reached, no check found the cancel event set, and it succeeded. */
  ghost predicate AllWell(ops: seq<string>, cancel: nat -> bool, ending: nat -> Ending) {
    (forall i :: 1 <= i <= |ops| ==> !cancel(i)) && forall i :: 0 <= i < |ops| ==> ending(i) == Succeeds
  }

  lemma StopsAtEnd(ops: seq<string>, cancel: nat -> bool, ending: nat -> Ending)
    ensures StopAt(ops, cancel, ending, 0) == |ops| <==> AllWell(ops, cancel, ending)
  {
    if StopAt(ops, cancel, ending, 0) == |ops| {
      forall i | 1 <= i <= |ops|
        ensures !cancel(i)
      {
        assert Passes(cancel, ending, i - 1);
      }
      forall i | 0 <= i < |ops|
        ensures ending(i) == Succeeds
      {
        assert Passes(cancel, ending, i);
      }
    }
  }

  /** What a result says of the operations that started: they are a prefix of the list, all
      but perhaps the last succeeded, and no check up to their own found a cancel; the last
      one, if it is no success, tells how it ended. */
  ghost predicate TellsPrefix(st: seq<Record>, ops: seq<string>, cancel: nat -> bool, ending: nat -> Ending) {
    && |st| <= |ops|
    && (forall i :: 0 <= i < |st| ==> st[i].op == ops[i] && Uncancelled(cancel, i))
    && (forall i :: 0 <= i < |st| - 1 ==> st[i] == Ran(ops[i], true))
    && (forall i :: 0 <= i < |st| ==> (st[i].Raised? <==> ending(i) == Raises) && (st[i].Ran? ==> (st[i].success <==> ending(i) == Succeeds)))
    && (|st| < |ops| ==> cancel(|st| + 1) || (|st| > 0 && ending(|st| - 1) != Succeeds))
  }

  lemma SingleMeans(taskName: string, ops: seq<string>, cancel: nat -> bool, sessionError: string,
                    ending: nat -> Ending, expectedFail: bool)
    requires OnceSetStays(cancel)
    ensures var r := SingleResult(taskName, ops, cancel, sessionError, ending, expectedFail);
            && (r.success <==> !cancel(0) && sessionError == NO_ERROR && AllWell(ops, cancel, ending))
            && (if cancel(0) || sessionError != NO_ERROR then r.operations == []
                else TellsPrefix(Started(r.operations), ops, cancel, ending)
                     && (Distinct(ops) ==> OneEntryEach(r.operations, ops, ending)))
  {
    hide Started, Records, TellsPrefix, AllWell, StopAt, Distinct, OneEntryEach;
    StopsAtEnd(ops, cancel, ending);
    if !cancel(0) {
      RecordsTell(ops, cancel, ending);
      if Distinct(ops) {
        RecordCount(ops, cancel, ending);
      }
    }
  }

  lemma RecordsTell(ops: seq<string>, cancel: nat -> bool, ending: nat -> Ending)
    requires OnceSetStays(cancel) && !cancel(0)
    ensures TellsPrefix(Started(Records(ops, cancel, ending)), ops, cancel, ending)
  {
    hide Started, Records, Uncancelled;
    StartedIs(ops, cancel, ending);
    StartedIsPrefix(ops, cancel, ending);
    var k, st := StopAt(ops, cancel, ending, 0), Started(Records(ops, cancel, ending));
    assert forall i :: 0 <= i < k ==> Passes(cancel, ending, i) && st[i] == Ran(ops[i], true);
    if |st| < |ops| && !cancel(|st| + 1) {
      assert |st| == k + 1 && !Passes(cancel, ending, k);
    }
  }

  lemma SetForGood(cancel: nat -> bool)
    requires OnceSetStays(cancel)
    ensures forall i, j :: 0 <= i <= j && cancel(i) ==> cancel(j)
  {
  }

  lemma NoEntries()
    ensures AllRan([]) == [] && AllNotStarted([]) == []
  {
  }

  lemma NextRan(ops: seq<string>, i: nat)
    requires i < |ops|
    ensures AllRan(ops[..i + 1]) == AllRan(ops[..i]) + [Ran(ops[i], true)]
  {
  }

  lemma NextNotStarted(ops: seq<string>, k: nat, i: nat)
    requires k <= i < |ops|
    ensures AllNotStarted(ops[k..i + 1]) == AllNotStarted(ops[k..i]) + [NotStarted(ops[i])]
  {
  }

  /** The loop over the operations of a task that has a session. */
  method RunOperations(ops: seq<string>, cancel: nat -> bool, ending: nat -> Ending)
    returns (opResults: seq<Record>, allSuccess: bool)
    requires OnceSetStays(cancel)
    ensures opResults == Records(ops, cancel, ending)
    ensures allSuccess <==> StopAt(ops, cancel, ending, 0) == |ops|
  {
    hide AllRan, AllNotStarted, AllAborted, OnceSetStays;
    SetForGood(cancel);
    NoEntries();
    opResults := [];
    allSuccess := true;
    var i := 0;
    ghost var k := StopAt(ops, cancel, ending, 0);
    while i < |ops|
      invariant 0 <= i <= |ops|
      invariant allSuccess ==> i <= k && opResults == AllRan(ops[..i])
      invariant !allSuccess ==> k < i && cancel(k + 1) && opResults == AllRan(ops[..k]) + AllNotStarted(ops[k..i])
      decreases |ops| - i
    {
      assert allSuccess && i < k ==> Passes(cancel, ending, i);
      if cancel(i + 1) {
        if allSuccess {
          assert k == i && ops[k..i] == [] && AllRan(ops[..k]) + [] == AllRan(ops[..k]);
        }
        NextNotStarted(ops, k, i);
        allSuccess := false;
        opResults := opResults + [NotStarted(ops[i])];
        i := i + 1;
        continue;
      }
      match ending(i) {
      case Succeeds =>
        opResults := opResults + [Ran(ops[i], true)];
        NextRan(ops, i);
      case Fails =>
        opResults := opResults + [Ran(ops[i], false)];
        var remaining := ops[FirstIndex(ops, ops[i]) + 1..];
        opResults := opResults + AllAborted(remaining);
        return opResults, false;
      case Raises =>
        opResults := opResults + [Raised(ops[i])];
        return opResults, false;
      }
      i := i + 1;
    }
    assert ops[..|ops|] == ops && ops[k..|ops|] == ops[k..];
  }

  /** _execute_single. cancel(0) is what the check before the session finds, cancel(i + 1) what
      the check before operation i finds. */
  method ExecuteSingle(taskName: string, ops: seq<string>, cancel: nat -> bool, sessionError: string,
                       ending: nat -> Ending, expectedFail: bool) returns (r: TaskResult)
    requires OnceSetStays(cancel)
    ensures r == SingleResult(taskName, ops, cancel, sessionError, ending, expectedFail)
    ensures r.taskName == taskName
    ensures r.success <==> sessionError == "" && (forall i :: 0 <= i <= |ops| ==> !cancel(i))
                           && forall i :: 0 <= i < |ops| ==> ending(i) == Succeeds
    ensures r.error == "" <==> r.success
    ensures r.error == if cancel(0) then "Cancelled by fail-fast" else if sessionError != "" then sessionError
                       else if r.success then "" else "One or more operations failed"
    ensures r.expectedFail <==> expectedFail && !cancel(0) && sessionError == ""
    ensures if cancel(0) || sessionError != "" then r.operations == [] else TellsPrefix(Started(r.operations), ops, cancel, ending)
    ensures !cancel(0) && sessionError == "" && Distinct(ops) ==> OneEntryEach(r.operations, ops, ending)
  {
    SingleMeans(taskName, ops, cancel, sessionError, ending, expectedFail);
    hide TellsPrefix, Started, Records, StopAt, Distinct, OneEntryEach;
    if cancel(0) {
      return TaskResult(taskName, false, [], CANCELLED, false);
    }
    if sessionError != NO_ERROR {
      return TaskResult(taskName, false, [], sessionError, false);
    }
    var opResults, allSuccess := RunOperations(ops, cancel, ending);
    r := TaskResult(taskName, allSuccess, opResults, if allSuccess then NO_ERROR else OPS_FAILED, expectedFail);
  }
}
