/** The records a dump is built from (dump.go:12-23) and the rule every loop
    over tables follows: process the names in order, stop at the first error. */
module Records {
  import opened Sql

  /** The dump format's version (dump.go:25). */
  const DumpVersion: string := "0.5.0"

  /** One table of the dump. `sequences` is filled only on PostgreSQL. */
  datatype Table = Table(name: string, sql: string, sequences: string, values: string)

  /** The document a template is executed over. */
  datatype Document = Document(
    dumpVersion: string, serverVersion: string, tables: seq<Table>, completeTime: string)

  /** The document once the records are in: the given document with the
      records appended and the completion time set (time.Now() is an input). */
  function Completed(data: Document, records: seq<Table>, now: string): Document
  {
    data.(tables := data.tables + records, completeTime := now)
  }

  /** What a dump ends with: the error returned, the document the template
      was executed over (when it was), and the queries issued. */
  datatype Outcome = Outcome(err: Option<Error>, document: Option<Document>, issued: seq<Query>)

  /** How a dump ends once its tables were attempted: with the first error and
      no document, or with the completed document. */
  function Finish(run: Attempt<seq<Table>>, data: Document, now: string): Outcome
  {
    match run.result
    case Err(e) => Outcome(Some(e), None, run.issued)
    case Ok(records) => Outcome(None, Some(Completed(data, records, now)), run.issued)
  }

  /** One step on one name: its result and the queries it issued. */
  datatype Attempt<T> = Attempt(result: Result<T>, issued: seq<Query>)

  /** The steps run in order; the first failing step ends the run with its
      error, and no later step issues anything. */
  function RunInOrder<T>(steps: seq<Attempt<T>>): Attempt<seq<T>>
    decreases |steps|
  {
    if steps == [] then Attempt(Ok([]), [])
    else
      var done := RunInOrder(steps[..|steps| - 1]);
      var last := steps[|steps| - 1];
      if done.result.Err? then done
      else match last.result
        case Err(e) => Attempt(Err(e), done.issued + last.issued)
        case Ok(v) => Attempt(Ok(done.result.value + [v]), done.issued + last.issued)
  }

  /** The queries of all the steps, one step after another. */
  function IssuedBy<T>(steps: seq<Attempt<T>>): seq<Query>
    decreases |steps|
  {
    if steps == [] then [] else IssuedBy(steps[..|steps| - 1]) + steps[|steps| - 1].issued
  }

  ghost predicate AllOk<T>(steps: seq<Attempt<T>>)
  {
    forall i :: 0 <= i < |steps| ==> steps[i].result.Ok?
  }

  /** Step k is the first one that fails. */
  ghost predicate FirstFailure<T>(steps: seq<Attempt<T>>, k: int)
  {
    0 <= k < |steps| && steps[k].result.Err? && AllOk(steps[..k])
  }

  /** When every step succeeds, the run yields every step's value in order and
      issues every step's queries. */
  lemma {:induction false} RunInOrderAllOk<T>(steps: seq<Attempt<T>>)
    requires AllOk(steps)
    ensures RunInOrder(steps).result.Ok?
    ensures |RunInOrder(steps).result.value| == |steps|
    ensures forall i :: 0 <= i < |steps| ==> RunInOrder(steps).result.value[i] == steps[i].result.value
    ensures RunInOrder(steps).issued == IssuedBy(steps)
    decreases |steps|
  {
    if steps != [] {
      RunInOrderAllOk(steps[..|steps| - 1]);
    }
  }

  /** When step k is the first to fail, the run fails with its error and has
      issued exactly the queries of steps 0..k. */
  lemma {:induction false} RunInOrderStops<T>(steps: seq<Attempt<T>>, k: int)
    requires FirstFailure(steps, k)
    ensures RunInOrder(steps).result == Err(steps[k].result.error)
    ensures RunInOrder(steps).issued == IssuedBy(steps[..k + 1])
    decreases |steps|
  {
    var init := steps[..|steps| - 1];
    if |steps| == k + 1 {
      assert init == steps[..k];
      RunInOrderAllOk(init);
      assert steps[..k + 1] == steps;
    } else {
      assert init[..k] == steps[..k];
      assert init[..k + 1] == steps[..k + 1];
      RunInOrderStops(init, k);
    }
  }

  /** A run fails exactly when some step fails, and then with the error of the
      first failing step. */
  lemma {:induction false} RunInOrderFails<T>(steps: seq<Attempt<T>>)
    ensures RunInOrder(steps).result.Err? <==> !AllOk(steps)
    ensures RunInOrder(steps).result.Err? ==>
      exists k :: FirstFailure(steps, k) && RunInOrder(steps).result.error == steps[k].result.error
    decreases |steps|
  {
    if steps != [] {
      var n := |steps|;
      var init := steps[..n - 1];
      RunInOrderFails(init);
      if !AllOk(init) {
        var k :| FirstFailure(init, k) && RunInOrder(init).result.error == init[k].result.error;
        assert steps[..k] == init[..k];
        assert FirstFailure(steps, k);
      } else {
        assert steps[..n - 1] == init;
        if steps[n - 1].result.Err? {
          assert FirstFailure(steps, n - 1);
        } else {
          assert AllOk(steps);
        }
      }
    }
  }

  /** One more step: a run that has already failed stays as it is; otherwise
      the step's queries are issued and its result decides. */
  lemma RunInOrderSnoc<T>(steps: seq<Attempt<T>>, step: Attempt<T>)
    ensures RunInOrder(steps + [step]) ==
      var done := RunInOrder(steps);
      if done.result.Err? then done
      else match step.result
        case Err(e) => Attempt(Err(e), done.issued + step.issued)
        case Ok(v) => Attempt(Ok(done.result.value + [v]), done.issued + step.issued)
  {
    assert (steps + [step])[..|steps|] == steps;
  }

  /** The steps up to and including step i are those before it and step i. */
  lemma PrefixSnoc<T>(steps: seq<T>, i: int)
    requires 0 <= i < |steps|
    ensures steps[..i + 1] == steps[..i] + [steps[i]]
  {
  }

  /** Once a prefix of the steps has failed, the later steps change nothing. */
  lemma {:induction false} RunInOrderPrefixFailed<T>(steps: seq<Attempt<T>>, n: int)
    requires 0 <= n <= |steps|
    requires RunInOrder(steps[..n]).result.Err?
    ensures RunInOrder(steps) == RunInOrder(steps[..n])
    decreases |steps|
  {
    if n == |steps| {
      assert steps[..n] == steps;
    } else {
      var init := steps[..|steps| - 1];
      assert init[..n] == steps[..n];
      RunInOrderPrefixFailed(init, n);
    }
  }

  /** When every table step succeeds, the dump ends with no error, issues
      every step's queries, and yields the given document with one record per
      step appended in step order and the completion time set. */
  lemma FinishAllOk(steps: seq<Attempt<Table>>, data: Document, now: string)
    requires AllOk(steps)
    ensures var out := Finish(RunInOrder(steps), data, now);
      out.err == None && out.document.Some? && out.issued == IssuedBy(steps) &&
      var doc := out.document.value;
      doc.completeTime == now &&
      doc.dumpVersion == data.dumpVersion && doc.serverVersion == data.serverVersion &&
      |doc.tables| == |data.tables| + |steps| && doc.tables[..|data.tables|] == data.tables &&
      forall i :: 0 <= i < |steps| ==> doc.tables[|data.tables| + i] == steps[i].result.value
  {
    RunInOrderAllOk(steps);
  }

  /** When step k is the first to fail, the dump ends with its error and no
      document, and has issued only the queries of steps 0..k. */
  lemma FinishStops(steps: seq<Attempt<Table>>, data: Document, now: string, k: int)
    requires FirstFailure(steps, k)
    ensures Finish(RunInOrder(steps), data, now) ==
      Outcome(Some(steps[k].result.error), None, IssuedBy(steps[..k + 1]))
  {
    RunInOrderStops(steps, k);
  }

  /** The dump fails exactly when one of its steps fails, and it yields a
      document exactly when it does not fail. */
  lemma FinishFailsIff(steps: seq<Attempt<Table>>, data: Document, now: string)
    ensures Finish(RunInOrder(steps), data, now).err.Some? <==> !AllOk(steps)
    ensures Finish(RunInOrder(steps), data, now).document.Some? <==> AllOk(steps)
  {
    RunInOrderFails(steps);
  }
}
