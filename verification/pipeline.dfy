/** The per-record loop of `handleSubmit` (src/App.tsx, lines 135-259): each
    record is classified, its empty result fields are filled one provider call
    at a time, and it gets a single write; progress is reported after every
    record. The host table, the network and `JSON.parse` are parameters. */
module Pipeline {
  import opened Wrappers
  import opened Text
  import opened Cells
  import opened Rows
  import opened Provider
  import opened Progress

  /** `getRecords({ pageSize: 5000 })` returns one page; the loop never asks for more. */
  const PageSize: nat := 5000

  /** One provider call: the record and field it is made for, and the request. */
  datatype Call = Call(recordId: string, field: FieldId, request: ChatRequest)

  /** The argument of `table.setRecord(recordId, { fields })`. */
  datatype Update = Update(recordId: string, fields: map<FieldId, string>)

  /** The world outside the pipeline:
      - `parse`: `JSON.parse` on array-looking strings;
      - `send`: the HTTP outcome of each call (one per record and field);
      - `store`: `None` when the host accepts a write, or the error it throws;
      - `referrer`: `window.location.href`. */
  datatype Env = Env(
    parse: Parser,
    send: Call -> HttpReply,
    store: Update -> Option<string>,
    referrer: string)

  /** How one record ended. `Aborted` is an exception no per-field handler
      catches: it ends the whole run. */
  datatype RowOutcome =
    | SkippedNoPrompt
    | SkippedFilled
    | Written(update: Update)
    | Aborted(cause: string)

  /** One record's effect: its outcome, the provider calls made and the writes issued, in order. */
  datatype RowResult = RowResult(outcome: RowOutcome, calls: seq<Call>, writes: seq<Update>)

  /** The text stored for field `f` of record `recordId` (lines 227-240). */
  function FieldAnswer(recordId: string, f: FieldId, req: ChatRequest, env: Env): string
  {
    Render(Interpret(env.send(Call(recordId, f, req))))
  }

  /** `updateFields` after the awaited loop of lines 225-241: every field gets an
      entry, whether its call succeeded or failed. */
  function Fill(recordId: string, fields: seq<FieldId>, req: ChatRequest, env: Env): (m: map<FieldId, string>)
    ensures m.Keys == set f | f in fields
    ensures forall f :: f in m ==> m[f] == FieldAnswer(recordId, f, req, env)
  {
    if |fields| == 0 then map[]
    else
      var init := fields[..|fields| - 1];
      var last := fields[|fields| - 1];
      assert forall f :: f in fields <==> f in init || f == last;
      Fill(recordId, init, req, env)[last := FieldAnswer(recordId, last, req, env)]
  }

  /** The calls of one record, one per field to update, in configured order. */
  function CallsFor(recordId: string, fields: seq<FieldId>, req: ChatRequest): (cs: seq<Call>)
    ensures |cs| == |fields|
    ensures forall j :: 0 <= j < |cs| ==> cs[j] == Call(recordId, fields[j], req)
  {
    seq(|fields|, j requires 0 <= j < |fields| => Call(recordId, fields[j], req))
  }

  /** The request every field of a record is asked with. */
  function RowRequest(cfg: Config, userPrompt: string, env: Env): ChatRequest
  {
    BuildRequest(cfg.apiKey, cfg.model, cfg.systemPrompt, userPrompt,
                 cfg.temperature, cfg.topP, env.referrer)
  }

  /** What the classification of a record (lines 153-222) decides: an escaping
      exception, one of the two skips, or the prompt and the fields to fill. */
  datatype WorkItem =
    | Raised(cause: string)
    | NoPrompt
    | AllFilled
    | Work(userPrompt: string, fields: seq<FieldId>)

  function Classify(cfg: Config, rec: Record, parse: Parser): (w: WorkItem)
    ensures w.Raised? <==> PromptTexts(cfg.promptFields, rec, parse).Failure?
    ensures w.Raised? ==> PromptTexts(cfg.promptFields, rec, parse) == Failure(w.cause)
    ensures w.NoPrompt? <==> PromptTexts(cfg.promptFields, rec, parse) == Success([])
    ensures w.AllFilled? <==>
      && PromptTexts(cfg.promptFields, rec, parse).Success?
      && PromptTexts(cfg.promptFields, rec, parse).value != []
      && FieldsToUpdate(cfg.resultFields, rec) == []
    ensures w.Work? ==>
      && PromptTexts(cfg.promptFields, rec, parse).Success?
      && w.userPrompt == Join(PromptTexts(cfg.promptFields, rec, parse).value)
      && w.fields == FieldsToUpdate(cfg.resultFields, rec) && w.fields != []
    ensures w.Work? ==> !IsBlank(w.userPrompt)
  {
    match PromptTexts(cfg.promptFields, rec, parse)
    case Failure(e) => Raised(e)
    case Success(texts) =>
      if |texts| == 0 then NoPrompt
      else
        var fields := FieldsToUpdate(cfg.resultFields, rec);
        if |fields| == 0 then AllFilled
        else
          JoinNotBlank(texts);
          Work(Join(texts), fields)
  }

  /** Lines 224-245 for a record with work: one call per field, in order, then
      a single write holding every field's answer or error placeholder. */
  function Dispatch(cfg: Config, recordId: string, userPrompt: string, fields: seq<FieldId>, env: Env): (r: RowResult)
    requires fields != []
    ensures r.calls == CallsFor(recordId, fields, RowRequest(cfg, userPrompt, env))
    ensures |r.writes| == 1 && r.writes[0].recordId == recordId
    ensures forall f :: f in r.writes[0].fields <==> f in fields
    ensures forall c :: c in r.calls ==>
      c.field in r.writes[0].fields && r.writes[0].fields[c.field] == Render(Interpret(env.send(c)))
    ensures r.outcome.Aborted? || r.outcome.Written?
    ensures r.outcome.Aborted? ==> env.store(r.writes[0]) == Some(r.outcome.cause)
    ensures r.outcome.Written? ==> r.outcome.update == r.writes[0] && env.store(r.writes[0]).None?
  {
    var req := RowRequest(cfg, userPrompt, env);
    var calls := CallsFor(recordId, fields, req);
    // `updateFields` has a key per field, so the guard of line 243 always holds.
    var u := Update(recordId, Fill(recordId, fields, req, env));
    assert forall c :: c in calls ==> c.field in fields && c == Call(recordId, c.field, req);
    match env.store(u)
    case Some(e) => RowResult(Aborted(e), calls, [u])
    case None => RowResult(Written(u), calls, [u])
  }

  /** One iteration of the loop of lines 151-249. */
  function ProcessRecord(cfg: Config, rec: Record, env: Env): (r: RowResult)
    // the two skip rules: no call, no write
    ensures r.outcome.SkippedNoPrompt? <==> PromptTexts(cfg.promptFields, rec, env.parse) == Success([])
    ensures r.outcome.SkippedFilled? <==>
      && PromptTexts(cfg.promptFields, rec, env.parse).Success?
      && PromptTexts(cfg.promptFields, rec, env.parse).value != []
      && FieldsToUpdate(cfg.resultFields, rec) == []
    ensures r.outcome.SkippedNoPrompt? || r.outcome.SkippedFilled? ==> r.calls == [] && r.writes == []
    // at most one write, and one exactly when calls were made
    ensures |r.writes| <= 1
    ensures |r.writes| == 1 <==> r.calls != []
    ensures r.outcome.Written? ==> r.writes == [r.outcome.update]
    // the write covers exactly the fields that were empty
    ensures forall u :: u in r.writes ==>
      u.recordId == rec.id && forall f :: f in u.fields <==> f in FieldsToUpdate(cfg.resultFields, rec)
    // one call per empty field, in configured order, each with the row's prompt
    ensures r.calls != [] ==>
      var texts := PromptTexts(cfg.promptFields, rec, env.parse);
      && texts.Success?
      && r.calls == CallsFor(rec.id, FieldsToUpdate(cfg.resultFields, rec), RowRequest(cfg, Join(texts.value), env))
    // each written field holds its own call's answer or error placeholder
    ensures forall c :: c in r.calls ==>
      c.field in r.writes[0].fields && r.writes[0].fields[c.field] == Render(Interpret(env.send(c)))
    // a provider failure never aborts: only a raising extraction or a rejected write does
    ensures r.outcome.Aborted? ==>
      || (PromptTexts(cfg.promptFields, rec, env.parse) == Failure(r.outcome.cause) && r.calls == [] && r.writes == [])
      || (|r.writes| == 1 && env.store(r.writes[0]) == Some(r.outcome.cause))
  {
    match Classify(cfg, rec, env.parse)
    case Raised(e) => RowResult(Aborted(e), [], [])
    case NoPrompt => RowResult(SkippedNoPrompt, [], [])
    case AllFilled => RowResult(SkippedFilled, [], [])
    case Work(userPrompt, fields) => Dispatch(cfg, rec.id, userPrompt, fields, env)
  }

  /** A failed provider call for one field leaves an "Error: " placeholder in
      that field and does not keep the record's other fields from being asked
      and written. */
  lemma FailedCallWritesPlaceholder(cfg: Config, rec: Record, env: Env, c: Call)
    requires c in ProcessRecord(cfg, rec, env).calls
    requires Interpret(env.send(c)).Failure?
    ensures var r := ProcessRecord(cfg, rec, env);
      && |r.writes| == 1
      && c.field in r.writes[0].fields
      && r.writes[0].fields[c.field] == ErrorPrefix + Interpret(env.send(c)).error
      && forall d :: d in r.calls ==> d.field in r.writes[0].fields
  {
  }

  /** The loop's effect after visiting some records: their results in order,
      the progress values set, and the exception that stopped it, if any. */
  datatype Trace = Trace(rows: seq<RowResult>, progress: seq<nat>, fault: Option<string>)

  /** What processing each record on its own would give; records are independent
      of one another, so the loop's results are a prefix of these. */
  function Outcomes(cfg: Config, recs: seq<Record>, env: Env): (rs: seq<RowResult>)
    ensures |rs| == |recs|
    ensures forall k :: 0 <= k < |recs| ==> rs[k] == ProcessRecord(cfg, recs[k], env)
  {
    seq(|recs|, k requires 0 <= k < |recs| => ProcessRecord(cfg, recs[k], env))
  }

  /** The `for ... of` loop over the records whose results are `results`, with
      `done` records of `total` already processed. Every record that finishes,
      skipped or written, sets the progress once; an aborted record sets none
      and ends the loop, so the records after it are never visited. */
  function Sweep(results: seq<RowResult>, done: nat, total: nat): (tr: Trace)
    requires done + |results| == total
    ensures |tr.rows| <= |results| && tr.rows == results[..|tr.rows|]
    ensures tr.fault.None? ==> |tr.rows| == |results|
    ensures tr.fault.Some? ==>
      |tr.rows| > 0 && tr.rows[|tr.rows| - 1].outcome == Aborted(tr.fault.value)
    ensures forall k :: 0 <= k < |tr.rows| && (tr.fault.None? || k < |tr.rows| - 1) ==>
      !tr.rows[k].outcome.Aborted?
    ensures |tr.progress| == if tr.fault.None? then |tr.rows| else |tr.rows| - 1
    ensures forall k :: 0 <= k < |tr.progress| ==> tr.progress[k] == Percent(done + k + 1, total)
    decreases |results|
  {
    if |results| == 0 then Trace([], [], None)
    else
      var row := results[0];
      if row.outcome.Aborted? then Trace([row], [], Some(row.outcome.cause))
      else
        var rest := Sweep(results[1..], done + 1, total);
        assert results[1..][..|rest.rows|] == results[1..|rest.rows| + 1];
        Trace([row] + rest.rows, [Percent(done + 1, total)] + rest.progress, rest.fault)
  }

  /** The records one `getRecords` call returns: at most `PageSize`, from the start. */
  function FirstPage(table: seq<Record>): (page: seq<Record>)
    ensures |page| <= PageSize && |page| <= |table| && page == table[..|page|]
    ensures |table| <= PageSize ==> page == table
  {
    if |table| <= PageSize then table else table[..PageSize]
  }

  /** How a submission ended: rejected by the guard, finished, or stopped by an exception. */
  datatype Status = Invalid | Completed | Failed(cause: string)

  /** Everything a submission does: its end, what each visited record did, and
      every value the progress indicator was set to, in order. */
  datatype Report = Report(status: Status, rows: seq<RowResult>, progress: seq<nat>)

  /** `handleSubmit`. `table` is the table's records, or the error `getTableById`
      or `getRecords` throws. */
  function Run(cfg: Config, table: Result<seq<Record>, string>, env: Env): (rep: Report)
    ensures rep.status.Invalid? <==> !Submittable(cfg)
    ensures rep.status.Invalid? ==> rep.rows == [] && rep.progress == []
    ensures !rep.status.Invalid? ==>
      |rep.progress| >= 2 && rep.progress[0] == 0 && rep.progress[|rep.progress| - 1] == 0
    ensures Submittable(cfg) && table.Failure? ==> rep.status == Failed(table.error) && rep.rows == []
  {
    if !Submittable(cfg) then Report(Invalid, [], [])
    else
      match table
      case Failure(e) => Report(Failed(e), [], [0, 0])
      case Success(all) =>
        var page := FirstPage(all);
        var tr := Sweep(Outcomes(cfg, page, env), 0, |page|);
        var status := if tr.fault.None? then Completed else Failed(tr.fault.value);
        Report(status, tr.rows, [0] + tr.progress + [0])
  }

  /** A run over a fetched table visits the records of the first page in order,
      each with the result it has on its own, until one aborts; it completes
      exactly when none aborts, and a failed run's last record aborted with its cause. */
  lemma RunVisitsInOrder(cfg: Config, all: seq<Record>, env: Env)
    requires Submittable(cfg)
    ensures var rep := Run(cfg, Success(all), env);
      var page := FirstPage(all);
      && |rep.rows| <= |page|
      && (forall k :: 0 <= k < |rep.rows| ==> rep.rows[k] == ProcessRecord(cfg, page[k], env))
      && (rep.status.Completed? <==>
            |rep.rows| == |page| && forall k :: 0 <= k < |page| ==> !rep.rows[k].outcome.Aborted?)
      && (rep.status.Failed? ==> rep.rows != [] && rep.rows[|rep.rows| - 1].outcome == Aborted(rep.status.cause))
  {
    var page := FirstPage(all);
    var results := Outcomes(cfg, page, env);
    var tr := Sweep(results, 0, |page|);
    var rep := Run(cfg, Success(all), env);
    assert rep.rows == tr.rows;
    forall k | 0 <= k < |rep.rows|
      ensures rep.rows[k] == ProcessRecord(cfg, page[k], env)
    {
      assert rep.rows[k] == results[k];
    }
  }

  /** The progress values a run sets between its two resets. */
  ghost predicate Tracks(mid: seq<nat>, total: nat) {
    |mid| <= total && forall k :: 0 <= k < |mid| ==> mid[k] == Percent(k + 1, total)
  }

  /** Progress values that track processed records never decrease, stay within
      100, and end at 100 once every record is counted. */
  lemma TrackedProgress(mid: seq<nat>, total: nat)
    requires Tracks(mid, total)
    ensures forall i :: 0 <= i < |mid| ==> mid[i] <= 100
    ensures forall i, j :: 0 <= i <= j < |mid| ==> mid[i] <= mid[j]
    ensures |mid| == total > 0 ==> mid[|mid| - 1] == 100
  {
    forall i, j | 0 <= i <= j < |mid| ensures mid[i] <= mid[j] {
      PercentMonotone(i + 1, j + 1, total);
    }
    if |mid| == total > 0 {
      PercentEnds(total);
    }
  }

  /** A progress trace framed by two resets around tracked values. */
  lemma FramedProgress(p: seq<nat>, total: nat)
    requires |p| >= 2 && p[0] == 0 && p[|p| - 1] == 0 && Tracks(p[1..|p| - 1], total)
    ensures forall i :: 0 <= i < |p| ==> p[i] <= 100
    ensures forall i, j :: 0 <= i <= j < |p| - 1 ==> p[i] <= p[j]
    ensures |p| - 2 == total > 0 ==> p[|p| - 2] == 100
  {
    var mid := p[1..|p| - 1];
    TrackedProgress(mid, total);
    assert forall i :: 1 <= i < |p| - 1 ==> p[i] == mid[i - 1];
  }

  /** Between its resets a run sets the progress once per finished record. */
  lemma RunProgressValues(cfg: Config, table: Result<seq<Record>, string>, env: Env)
    requires Submittable(cfg)
    ensures var rep := Run(cfg, table, env);
      |rep.progress| >= 2 &&
      var mid := rep.progress[1..|rep.progress| - 1];
      && (table.Failure? ==> mid == [])
      && (table.Success? ==> Tracks(mid, |FirstPage(table.value)|))
      && (table.Success? && rep.status.Completed? ==> |mid| == |FirstPage(table.value)|)
  {
    if table.Success? {
      var page := FirstPage(table.value);
      var tr := Sweep(Outcomes(cfg, page, env), 0, |page|);
      var rep := Run(cfg, table, env);
      assert rep.progress == [0] + tr.progress + [0];
      assert rep.progress[1..|rep.progress| - 1] == tr.progress;
    }
  }

  /** Progress starts at 0, never decreases while records are processed, never
      exceeds 100, reaches 100 after the last record of a completed run, and is
      reset to 0 when the run ends, however it ends. */
  lemma RunProgress(cfg: Config, table: Result<seq<Record>, string>, env: Env)
    requires Submittable(cfg)
    ensures var p := Run(cfg, table, env).progress;
      && |p| >= 2 && p[0] == 0 && p[|p| - 1] == 0
      && (forall i :: 0 <= i < |p| ==> p[i] <= 100)
      && (forall i, j :: 0 <= i <= j < |p| - 1 ==> p[i] <= p[j])
    ensures var rep := Run(cfg, table, env);
      rep.status.Completed? && table.Success? && table.value != [] ==>
        rep.progress[|rep.progress| - 2] == 100
  {
    var rep := Run(cfg, table, env);
    RunProgressValues(cfg, table, env);
    var total := if table.Success? then |FirstPage(table.value)| else 0;
    FramedProgress(rep.progress, total);
  }

  /** A run writes only into cells that were empty when the table was read: a
      result cell holding non-blank text is never overwritten, and no record
      gets more than one write. */
  lemma RunNeverOverwrites(cfg: Config, all: seq<Record>, env: Env)
    requires Submittable(cfg)
    ensures var rep := Run(cfg, Success(all), env);
      var page := FirstPage(all);
      forall k :: 0 <= k < |rep.rows| ==>
        && |rep.rows[k].writes| <= 1
        && forall u :: u in rep.rows[k].writes ==>
             && u.recordId == page[k].id
             && forall f :: f in u.fields ==>
                  f in cfg.resultFields && NeedsFill(Cell(page[k], f))
                  && (Cell(page[k], f).Str? ==> IsBlank(Cell(page[k], f).s))
  {
    RunVisitsInOrder(cfg, all, env);
  }

  /** A provider failure never stops a run: a run fails only when the records
      cannot be read, a cell extraction raises, or the host rejects a write. */
  lemma RunFailureCause(cfg: Config, table: Result<seq<Record>, string>, env: Env)
    requires Submittable(cfg)
    ensures var rep := Run(cfg, table, env);
      rep.status.Failed? ==>
        || table == Failure(rep.status.cause)
        || (table.Success? && rep.rows != [] &&
            var k := |rep.rows| - 1;
            var rec := FirstPage(table.value)[k];
            || PromptTexts(cfg.promptFields, rec, env.parse) == Failure(rep.status.cause)
            || (|rep.rows[k].writes| == 1 && env.store(rep.rows[k].writes[0]) == Some(rep.status.cause)))
  {
    if table.Success? {
      RunVisitsInOrder(cfg, table.value, env);
    }
  }

  /** The record as the host holds it after `u` is written. */
  function Apply(rec: Record, u: Update): (r: Record)
    requires u.recordId == rec.id
    ensures r.id == rec.id
    ensures forall f :: f in u.fields ==> Cell(r, f) == Str(u.fields[f])
    ensures forall f :: f !in u.fields ==> Cell(r, f) == Cell(rec, f)
  {
    Record(rec.id, rec.fields + map f | f in u.fields :: Str(u.fields[f]))
  }

  /** Writing strings into a record cannot make an input cell raise. */
  lemma WriteKeepsExtractable(fields: seq<FieldId>, rec: Record, u: Update, parse: Parser)
    requires u.recordId == rec.id
    requires PromptTexts(fields, rec, parse).Success?
    ensures PromptTexts(fields, Apply(rec, u), parse).Success?
  {
    var rec' := Apply(rec, u);
    forall i | 0 <= i < |fields|
      ensures !Faults(Cell(rec', fields[i]), parse)
    {
      if fields[i] !in u.fields {
        assert Cell(rec', fields[i]) == Cell(rec, fields[i]);
      }
    }
  }

  /** Writing non-blank text into every empty result field leaves none to fill. */
  lemma WriteFillsAll(fields: seq<FieldId>, rec: Record, u: Update)
    requires u.recordId == rec.id
    requires forall f :: f in u.fields <==> f in FieldsToUpdate(fields, rec)
    requires forall f :: f in u.fields ==> !IsBlank(u.fields[f])
    ensures FieldsToUpdate(fields, Apply(rec, u)) == []
  {
    var rec' := Apply(rec, u);
    forall f | f in fields
      ensures !NeedsFill(Cell(rec', f))
    {
      if f in u.fields {
        assert Cell(rec', f) == Str(u.fields[f]);
      }
    }
    NothingToFill(fields, rec');
  }

  /** Filling only empty cells is idempotent: once a record's write has landed,
      processing it again makes no call and no write, provided no answer was
      blank (an error placeholder or "No response" never is). */
  lemma RefillIsNoop(cfg: Config, rec: Record, env: Env)
    requires ProcessRecord(cfg, rec, env).outcome.Written?
    requires var u := ProcessRecord(cfg, rec, env).outcome.update;
      forall f :: f in u.fields ==> !IsBlank(u.fields[f])
    ensures var u := ProcessRecord(cfg, rec, env).outcome.update;
      var again := ProcessRecord(cfg, Apply(rec, u), env);
      again.calls == [] && again.writes == [] &&
      (again.outcome.SkippedNoPrompt? || again.outcome.SkippedFilled?)
  {
    var r := ProcessRecord(cfg, rec, env);
    var u := r.outcome.update;
    assert u in r.writes;
    WriteKeepsExtractable(cfg.promptFields, rec, u, env.parse);
    WriteFillsAll(cfg.resultFields, rec, u);
  }

  /** The table after a completed run's writes have landed, record by record. */
  function Settle(page: seq<Record>, rows: seq<RowResult>): (after: seq<Record>)
    requires |rows| == |page|
    ensures |after| == |page|
    ensures forall k :: 0 <= k < |page| ==> after[k].id == page[k].id
  {
    seq(|page|, k requires 0 <= k < |page| =>
      var o := rows[k].outcome;
      if o.Written? && o.update.recordId == page[k].id then Apply(page[k], o.update) else page[k])
  }

  /** Submitting again after a completed run (on a table within one page) makes
      no provider call and no write, provided the first run wrote no blank answer. */
  lemma RerunIsNoop(cfg: Config, all: seq<Record>, env: Env)
    requires Submittable(cfg) && |all| <= PageSize
    requires Run(cfg, Success(all), env).status.Completed?
    requires var rows := Run(cfg, Success(all), env).rows;
      forall k, u, f :: 0 <= k < |rows| && u in rows[k].writes && f in u.fields ==> !IsBlank(u.fields[f])
    ensures |Run(cfg, Success(all), env).rows| == |all|
    ensures var again := Run(cfg, Success(Settle(all, Run(cfg, Success(all), env).rows)), env);
      && again.status.Completed?
      && forall k :: 0 <= k < |again.rows| ==> again.rows[k].calls == [] && again.rows[k].writes == []
  {
    var rows := Run(cfg, Success(all), env).rows;
    RunVisitsInOrder(cfg, all, env);
    var after := Settle(all, rows);
    var again := Run(cfg, Success(after), env);
    RunVisitsInOrder(cfg, after, env);
    forall k | 0 <= k < |all|
      ensures ProcessRecord(cfg, after[k], env).calls == []
      ensures ProcessRecord(cfg, after[k], env).writes == []
      ensures !ProcessRecord(cfg, after[k], env).outcome.Aborted?
    {
      var r := ProcessRecord(cfg, all[k], env);
      assert rows[k] == r;
      if r.outcome.Written? {
        assert r.outcome.update in r.writes;
        assert after[k] == Apply(all[k], r.outcome.update);
        RefillIsNoop(cfg, all[k], env);
      } else {
        assert after[k] == all[k];
      }
    }
  }
}
