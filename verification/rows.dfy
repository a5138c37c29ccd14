/** The Row Classifier: the submit guard, prompt assembly from the configured
    input fields, and selection of the result fields still to fill
    (src/App.tsx, lines 136-139 and 153-222). */
module Rows {
  import opened Wrappers
  import opened Text
  import opened Cells

  type FieldId = string

  /** A table record: its id and its field-value mapping keyed by field id. */
  datatype Record = Record(id: string, fields: map<FieldId, CellValue>)

  /** The submitted form values. `temperature` and `topP` are `None` when unset. */
  datatype Config = Config(
    table: string,
    systemPrompt: string,
    model: string,
    apiKey: string,
    promptFields: seq<FieldId>,
    resultFields: seq<FieldId>,
    temperature: Option<real>,
    topP: Option<real>)

  /** The guard of lines 136-139. It checks neither the model nor the result fields. */
  predicate Submittable(cfg: Config) {
    cfg.table != "" && |cfg.promptFields| > 0 && cfg.apiKey != "" && cfg.systemPrompt != ""
  }

  /** `record.fields[fieldId]`: a missing key reads as `undefined`. */
  function Cell(rec: Record, f: FieldId): CellValue {
    if f in rec.fields then rec.fields[f] else Absent
  }

  /** Whether extracting the cell raises (the exception escapes to the run). */
  predicate Faults(v: CellValue, parse: Parser) {
    ExtractText(v, parse).Failure?
  }

  /** What one input field adds to the prompt list: nothing when the cell is
      falsy or its text trims to empty, otherwise its untrimmed text. */
  function Contribution(v: CellValue, parse: Parser): (r: Result<seq<string>, string>)
    ensures !Truthy(v) ==> r == Success([])
    ensures r.Failure? <==> Faults(v, parse)
    ensures r.Success? ==> |r.value| <= 1
    ensures r.Success? && r.value == [] ==> IsBlank(ExtractText(v, parse).value)
    ensures r.Success? && r.value != [] ==>
      r.value == [ExtractText(v, parse).value] && !IsBlank(r.value[0])
  {
    if !Truthy(v) then Success([])
    else
      match ExtractText(v, parse)
      case Failure(e) => Failure(e)
      case Success(t) => if Trim(t) != "" then Success([t]) else Success([])
  }

  /** The prompt list of lines 153-195: the contributions of `fields`, in order.
      The first extraction that raises ends the computation with its error. */
  function PromptTexts(fields: seq<FieldId>, rec: Record, parse: Parser): (r: Result<seq<string>, string>)
    ensures r.Failure? <==> exists i :: 0 <= i < |fields| && Faults(Cell(rec, fields[i]), parse)
    ensures r.Success? ==> |r.value| <= |fields|
    ensures r.Success? ==> forall j :: 0 <= j < |r.value| ==> !IsBlank(r.value[j])
  {
    if |fields| == 0 then Success([])
    else
      match Contribution(Cell(rec, fields[0]), parse)
      case Failure(e) => Failure(e)
      case Success(head) =>
        match PromptTexts(fields[1..], rec, parse)
        case Failure(e) =>
          assert forall i :: 0 <= i < |fields| - 1 ==> fields[1..][i] == fields[i + 1];
          Failure(e)
        case Success(tail) =>
          assert forall i :: 1 <= i < |fields| ==> fields[i] == fields[1..][i - 1];
          Success(head + tail)
  }

  /** Prompt assembly distributes over the field list: the texts of `a + b` are
      those of `a` followed by those of `b`, and a fault in `a` wins over one in `b`. */
  lemma {:induction false} PromptTextsAppend(a: seq<FieldId>, b: seq<FieldId>, rec: Record, parse: Parser)
    ensures PromptTexts(a + b, rec, parse) == Concat(PromptTexts(a, rec, parse), PromptTexts(b, rec, parse))
    decreases |a|
  {
    if |a| == 0 {
      assert a + b == b;
      var pb := PromptTexts(b, rec, parse);
      assert pb.Success? ==> [] + pb.value == pb.value;
    } else {
      var ab := a + b;
      assert ab[0] == a[0];
      assert ab[1..] == a[1..] + b;
      PromptTextsAppend(a[1..], b, rec, parse);
      var c := Contribution(Cell(rec, a[0]), parse);
      var pa := PromptTexts(a[1..], rec, parse);
      var pb := PromptTexts(b, rec, parse);
      assert PromptTexts(ab, rec, parse) == Concat(c, Concat(pa, pb));
      assert PromptTexts(a, rec, parse) == Concat(c, pa);
      ConcatAssociative(c, pa, pb);
    }
  }

  /** Sequencing two lists that may have failed: the first failure wins. */
  function Concat(x: Result<seq<string>, string>, y: Result<seq<string>, string>): Result<seq<string>, string>
  {
    match x
    case Failure(e) => Failure(e)
    case Success(u) =>
      match y
      case Failure(e) => Failure(e)
      case Success(v) => Success(u + v)
  }

  lemma ConcatAssociative(x: Result<seq<string>, string>, y: Result<seq<string>, string>, z: Result<seq<string>, string>)
    ensures Concat(x, Concat(y, z)) == Concat(Concat(x, y), z)
  {
    if x.Success? && y.Success? && z.Success? {
      assert x.value + (y.value + z.value) == (x.value + y.value) + z.value;
    }
  }

  /** A single field's list is its contribution. */
  lemma PromptTextsSingle(f: FieldId, rec: Record, parse: Parser)
    ensures PromptTexts([f], rec, parse) == Contribution(Cell(rec, f), parse)
  {
    assert [f][1..] == [];
    var c := Contribution(Cell(rec, f), parse);
    if c.Success? {
      assert c.value + [] == c.value;
    }
  }

  /** The emptiness test of line 212: falsy, or a string that trims to empty. */
  predicate NeedsFill(v: CellValue) {
    !Truthy(v) || (v.Str? && Trim(v.s) == "")
  }

  /** `fieldsToUpdate` of lines 208-215: the configured result fields whose cell
      is empty, in configured order. A cell holding non-blank text is never chosen. */
  function FieldsToUpdate(fields: seq<FieldId>, rec: Record): (r: seq<FieldId>)
    ensures forall f :: f in r <==> f in fields && NeedsFill(Cell(rec, f))
    ensures forall f :: f in fields && Cell(rec, f).Str? ==> (f in r <==> IsBlank(Cell(rec, f).s))
    ensures forall f :: f in r ==> !Cell(rec, f).ObjArray? && !Cell(rec, f).Obj? && !Cell(rec, f).Other?
    ensures |r| <= |fields|
  {
    if |fields| == 0 then []
    else
      var rest := FieldsToUpdate(fields[1..], rec);
      assert forall f :: f in fields <==> f == fields[0] || f in fields[1..];
      if NeedsFill(Cell(rec, fields[0])) then [fields[0]] + rest else rest
  }

  /** Selection distributes over the field list, so it keeps the configured order. */
  lemma {:induction false} FieldsToUpdateAppend(a: seq<FieldId>, b: seq<FieldId>, rec: Record)
    ensures FieldsToUpdate(a + b, rec) == FieldsToUpdate(a, rec) + FieldsToUpdate(b, rec)
    decreases |a|
  {
    if |a| == 0 {
      assert a + b == b;
    } else {
      assert (a + b)[0] == a[0];
      assert (a + b)[1..] == a[1..] + b;
      FieldsToUpdateAppend(a[1..], b, rec);
    }
  }

  /** A record is fully populated exactly when no configured result field needs filling. */
  lemma {:induction false} NothingToFill(fields: seq<FieldId>, rec: Record)
    ensures FieldsToUpdate(fields, rec) == [] <==> forall f :: f in fields ==> !NeedsFill(Cell(rec, f))
    decreases |fields|
  {
    if |fields| > 0 {
      NothingToFill(fields[1..], rec);
      assert forall f :: f in fields <==> f == fields[0] || f in fields[1..];
    }
  }
}
