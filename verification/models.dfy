/** The stored prediction record (aioracle/models.py:6-40): an immutable eight-field value,
    its construction from a dictionary and its row for the `predictions` table. */
module Models {
  import opened Wrappers

  /** A frozen dataclass; a datatype value is immutable in the same way. */
  datatype Prediction = Prediction(
    timestamp: string,
    agiDate: string,
    agiType: string,
    agiProb: real,
    asiDate: string,
    asiContext: string,
    singularityDate: string,
    singularityProb: real)

  /** A dictionary value: text or a number. */
  datatype Value = Text(text: string) | Number(number: real)

  /** What `from_dict` can raise: a missing key, or text that `float` does not parse. */
  datatype DictError = KeyError(key: string) | ValueError(text: string)

  /** How a field is converted: with `str` or with `float`. */
  datatype FieldKind = StrField | FloatField

  datatype Field = Field(name: string, kind: FieldKind)

  /** The fields in declaration order, which is also the order `from_dict` reads them in. */
  const Fields: seq<Field> := [
    Field("timestamp", StrField),
    Field("agi_date", StrField),
    Field("agi_type", StrField),
    Field("agi_prob", FloatField),
    Field("asi_date", StrField),
    Field("asi_context", StrField),
    Field("singularity_date", StrField),
    Field("singularity_prob", FloatField)]

  /** The column list of the `INSERT` statement (aioracle/db.py:42-44). */
  const InsertColumns: seq<string> := [
    "timestamp", "agi_date", "agi_type", "agi_prob",
    "asi_date", "asi_context", "singularity_date", "singularity_prob"]

  /** A value of the shape a field of kind `kind` holds after conversion. */
  predicate Conforms(v: Value, kind: FieldKind)
  {
    match kind
    case StrField => v.Text?
    case FloatField => v.Number?
  }

  /** `str(v)` or `float(v)`. `render` stands for `str` on a number and `parse` for `float` on
      text, which fails on text that is not a number. */
  function Convert(v: Value, kind: FieldKind, render: real -> string, parse: string -> Option<real>)
    : (r: Result<Value, DictError>)
    ensures r.Success? ==> Conforms(r.value, kind)
    ensures Conforms(v, kind) ==> r == Success(v)
  {
    match (kind, v)
    case (StrField, Text(_)) => Success(v)
    case (StrField, Number(x)) => Success(Text(render(x)))
    case (FloatField, Number(_)) => Success(v)
    case (FloatField, Text(s)) =>
      match parse(s)
      case None => Failure(ValueError(s))
      case Some(x) => Success(Number(x))
  }

  /** The key is present and its value converts. */
  predicate FieldOk(data: map<string, Value>, f: Field, render: real -> string, parse: string -> Option<real>)
  {
    f.name in data && Convert(data[f.name], f.kind, render, parse).Success?
  }

  /** The exception reading field `f` raises. */
  function FieldError(data: map<string, Value>, f: Field, render: real -> string, parse: string -> Option<real>)
    : DictError
    requires !FieldOk(data, f, render, parse)
  {
    if f.name !in data then KeyError(f.name) else Convert(data[f.name], f.kind, render, parse).error
  }

  /** Reads and converts `fields` in order, stopping at the first one that raises. */
  function ConvertFields(data: map<string, Value>, fields: seq<Field>,
                         render: real -> string, parse: string -> Option<real>)
    : (r: Result<seq<Value>, DictError>)
    ensures r.Success? <==> forall i :: 0 <= i < |fields| ==> FieldOk(data, fields[i], render, parse)
    ensures r.Success? ==> |r.value| == |fields|
    ensures r.Success? ==> forall i :: 0 <= i < |fields| ==>
      fields[i].name in data && r.value[i] == Convert(data[fields[i].name], fields[i].kind, render, parse).value
    decreases |fields|
  {
    if |fields| == 0 then Success([])
    else
      var f := fields[0];
      if !FieldOk(data, f, render, parse) then Failure(FieldError(data, f, render, parse))
      else
        match ConvertFields(data, fields[1..], render, parse)
        case Failure(e) =>
          Failure(e)
        case Success(rest) =>
          assert forall i :: 1 <= i < |fields| ==> fields[i] == fields[1..][i - 1];
          Success([Convert(data[f.name], f.kind, render, parse).value] + rest)
  }

  /** `Prediction.from_dict` */
  function FromDict(data: map<string, Value>, render: real -> string, parse: string -> Option<real>)
    : (r: Result<Prediction, DictError>)
    ensures r.Success? <==> forall i :: 0 <= i < |Fields| ==> FieldOk(data, Fields[i], render, parse)
    ensures r.Success? ==> ConvertFields(data, Fields, render, parse) == Success(ToDbTuple(r.value))
  {
    match ConvertFields(data, Fields, render, parse)
    case Failure(e) => Failure(e)
    case Success(vs) =>
      ConvertedRowShape(data, render, parse);
      Success(PredictionOfRow(vs))
  }

  /** The prediction whose fields are the row's values, read in declaration order. */
  function PredictionOfRow(vs: seq<Value>): (p: Prediction)
    requires RowShape(vs)
    ensures ToDbTuple(p) == vs
  {
    var p := Prediction(vs[0].text, vs[1].text, vs[2].text, vs[3].number,
                        vs[4].text, vs[5].text, vs[6].text, vs[7].number);
    assert ToDbTuple(p) == vs;
    p
  }

  /** Eight values: text, except numbers for the two probabilities. */
  predicate RowShape(vs: seq<Value>)
  {
    |vs| == 8 && vs[0].Text? && vs[1].Text? && vs[2].Text? && vs[3].Number? &&
    vs[4].Text? && vs[5].Text? && vs[6].Text? && vs[7].Number?
  }

  lemma ConvertedRowShape(data: map<string, Value>, render: real -> string, parse: string -> Option<real>)
    requires ConvertFields(data, Fields, render, parse).Success?
    ensures RowShape(ConvertFields(data, Fields, render, parse).value)
  {
    var vs := ConvertFields(data, Fields, render, parse).value;
    assert Conforms(vs[0], Fields[0].kind) && Conforms(vs[1], Fields[1].kind);
    assert Conforms(vs[2], Fields[2].kind) && Conforms(vs[3], Fields[3].kind);
    assert Conforms(vs[4], Fields[4].kind) && Conforms(vs[5], Fields[5].kind);
    assert Conforms(vs[6], Fields[6].kind) && Conforms(vs[7], Fields[7].kind);
  }

  /** The dictionary that holds a prediction's fields under their names. */
  function ToDict(p: Prediction): map<string, Value>
  {
    map[
      "timestamp" := Text(p.timestamp),
      "agi_date" := Text(p.agiDate),
      "agi_type" := Text(p.agiType),
      "agi_prob" := Number(p.agiProb),
      "asi_date" := Text(p.asiDate),
      "asi_context" := Text(p.asiContext),
      "singularity_date" := Text(p.singularityDate),
      "singularity_prob" := Number(p.singularityProb)]
  }

  /** `to_db_tuple`: the row whose i-th value is the field the i-th `INSERT` column names. */
  function ToDbTuple(p: Prediction): (row: seq<Value>)
    ensures |row| == |InsertColumns|
    ensures forall i :: 0 <= i < |row| ==> InsertColumns[i] in ToDict(p) && row[i] == ToDict(p)[InsertColumns[i]]
  {
    [Text(p.timestamp), Text(p.agiDate), Text(p.agiType), Number(p.agiProb),
     Text(p.asiDate), Text(p.asiContext), Text(p.singularityDate), Number(p.singularityProb)]
  }

  /** Pairs each column name with the value at the same position. */
  function RowToDict(columns: seq<string>, row: seq<Value>): (d: map<string, Value>)
    requires |columns| == |row|
    requires forall i, j :: 0 <= i < j < |columns| ==> columns[i] != columns[j]
    ensures forall i :: 0 <= i < |columns| ==> columns[i] in d && d[columns[i]] == row[i]
    ensures forall k :: k in d ==> k in columns
  {
    map i | 0 <= i < |columns| :: columns[i] := row[i]
  }

  /** The field names are the `INSERT` columns, in the same order. */
  lemma FieldNamesAreColumns()
    ensures |Fields| == |InsertColumns|
    ensures forall i :: 0 <= i < |Fields| ==> Fields[i].name == InsertColumns[i]
  {
  }

  /** Values already of the right kind pass through the conversions unchanged. */
  lemma {:induction false} ConvertConforming(data: map<string, Value>, fields: seq<Field>, vs: seq<Value>,
                                            render: real -> string, parse: string -> Option<real>)
    requires |vs| == |fields|
    requires forall i :: 0 <= i < |fields| ==> fields[i].name in data && data[fields[i].name] == vs[i]
    requires forall i :: 0 <= i < |fields| ==> Conforms(vs[i], fields[i].kind)
    ensures ConvertFields(data, fields, render, parse) == Success(vs)
    decreases |fields|
  {
    if 0 < |fields| {
      assert forall i :: 1 <= i < |fields| ==> fields[i] == fields[1..][i - 1] && vs[i] == vs[1..][i - 1];
      ConvertConforming(data, fields[1..], vs[1..], render, parse);
      assert vs == [vs[0]] + vs[1..];
    }
  }

  /** Every value of a prediction's row has the kind its field is converted to. */
  lemma RowConforms(p: Prediction)
    ensures forall i :: 0 <= i < |Fields| ==> Conforms(ToDbTuple(p)[i], Fields[i].kind)
  {
  }

  /** A dictionary holding every field of a prediction, with the right kind of value, gives
      that prediction back, whatever `str` and `float` do with other values. */
  lemma FromDictRoundTrip(p: Prediction, render: real -> string, parse: string -> Option<real>)
    ensures FromDict(ToDict(p), render, parse) == Success(p)
  {
    FieldNamesAreColumns();
    RowConforms(p);
    ConvertConforming(ToDict(p), Fields, ToDbTuple(p), render, parse);
  }

  /** Keys other than the eight field names do not change the result. */
  lemma FromDictIgnoresExtraKeys(data: map<string, Value>, extra: map<string, Value>,
                                 render: real -> string, parse: string -> Option<real>)
    requires forall k :: k in extra ==> k !in InsertColumns
    ensures FromDict(data + extra, render, parse) == FromDict(data, render, parse)
  {
    forall i | 0 <= i < |Fields|
      ensures Fields[i].name in data + extra <==> Fields[i].name in data
      ensures Fields[i].name in data ==> (data + extra)[Fields[i].name] == data[Fields[i].name]
    {
      assert Fields[i].name == InsertColumns[i];
    }
    ConvertFieldsAgree(data + extra, data, Fields, render, parse);
  }

  /** Two dictionaries that agree on the fields read convert them alike. */
  lemma {:induction false} ConvertFieldsAgree(d1: map<string, Value>, d2: map<string, Value>, fields: seq<Field>,
                                             render: real -> string, parse: string -> Option<real>)
    requires forall i :: 0 <= i < |fields| ==> (fields[i].name in d1 <==> fields[i].name in d2)
    requires forall i :: 0 <= i < |fields| && fields[i].name in d1 ==> d1[fields[i].name] == d2[fields[i].name]
    ensures ConvertFields(d1, fields, render, parse) == ConvertFields(d2, fields, render, parse)
    decreases |fields|
  {
    if 0 < |fields| {
      assert forall i :: 1 <= i < |fields| ==> fields[i] == fields[1..][i - 1];
      ConvertFieldsAgree(d1, d2, fields[1..], render, parse);
    }
  }

  /** Reading stops at the first field that raises, and that field's error is reported. */
  lemma {:induction false} ConvertFieldsFirstError(data: map<string, Value>, fields: seq<Field>, i: int,
                                                  render: real -> string, parse: string -> Option<real>)
    requires 0 <= i < |fields|
    requires forall j :: 0 <= j < i ==> FieldOk(data, fields[j], render, parse)
    requires !FieldOk(data, fields[i], render, parse)
    ensures ConvertFields(data, fields, render, parse) == Failure(FieldError(data, fields[i], render, parse))
    decreases |fields|
  {
    if 0 < i {
      assert forall j :: 0 <= j < i - 1 ==> fields[1..][j] == fields[j + 1];
      ConvertFieldsFirstError(data, fields[1..], i - 1, render, parse);
    }
  }

  /** `from_dict` raises for the first field, in declaration order, whose key is missing or
      whose value does not convert. */
  lemma FromDictFirstError(data: map<string, Value>, i: int, render: real -> string, parse: string -> Option<real>)
    requires 0 <= i < |Fields|
    requires forall j :: 0 <= j < i ==> FieldOk(data, Fields[j], render, parse)
    requires !FieldOk(data, Fields[i], render, parse)
    ensures FromDict(data, render, parse) == Failure(FieldError(data, Fields[i], render, parse))
  {
    ConvertFieldsFirstError(data, Fields, i, render, parse);
  }

  /** A dictionary with only a timestamp fails on `agi_date`, the second field. */
  lemma MissingKeyExample(render: real -> string, parse: string -> Option<real>)
    ensures FromDict(map["timestamp" := Text("t")], render, parse) == Failure(KeyError("agi_date"))
  {
    FromDictFirstError(map["timestamp" := Text("t")], 1, render, parse);
  }

  /** The row written by `save_prediction`, paired with the `INSERT` column list, reads back as
      the same prediction: the tuple order and the column order agree. */
  lemma DbRowRoundTrip(p: Prediction, render: real -> string, parse: string -> Option<real>)
    ensures FromDict(RowToDict(InsertColumns, ToDbTuple(p)), render, parse) == Success(p)
  {
    var row := ToDbTuple(p);
    var d := RowToDict(InsertColumns, row);
    FieldNamesAreColumns();
    RowConforms(p);
    ConvertConforming(d, Fields, row, render, parse);
  }
}
