/** The export dialog: the fields offered (from the first record), the default and required
    selection, the field toggles, the export guard and the cell formatting of the workbook. */
module ExportModal {
  import opened Remote
  import Text
  import Paging

  /** A JavaScript value as it appears in a record; `Missing` is null or undefined, and `Other`
      an object or array. */
  datatype Value = Bool(b: bool) | Num(n: int) | Str(s: string) | Missing | Other

  /** A record: its keys in `Object.keys` order with their values. */
  type Row = seq<(string, Value)>

  datatype FieldType = StringField | NumberField | DateField | BooleanField

  datatype ExportField = ExportField(key: string, caption: string, kind: FieldType, required: bool)

  /** `row[key]`: the value of the key, `Missing` when the record has none. */
  function Lookup(row: Row, key: string): (v: Value)
    ensures v != Missing ==> exists i :: 0 <= i < |row| && row[i] == (key, v)
    ensures (forall i :: 0 <= i < |row| ==> row[i].0 != key) ==> v == Missing
  {
    if row == [] then Missing
    else if row[0].0 == key then (if row[0].1 == Missing then Missing else row[0].1)
    else
      var v := Lookup(row[1..], key);
      if v != Missing then
        ghost var i :| 0 <= i < |row[1..]| && row[1..][i] == (key, v);
        assert row[i + 1] == (key, v);
        v
      else v
  }

  function Keys(row: Row): (keys: seq<string>)
    ensures |keys| == |row|
    ensures forall i :: 0 <= i < |row| ==> keys[i] == row[i].0
  {
    seq(|row|, i requires 0 <= i < |row| => row[i].0)
  }

  predicate IsDigit(c: char) { '0' <= c <= '9' }

  /** `/^\d{4}-\d{2}-\d{2}/`: the text starts like an ISO date. */
  predicate StartsLikeDate(s: string)
  {
    && |s| >= 10
    && IsDigit(s[0]) && IsDigit(s[1]) && IsDigit(s[2]) && IsDigit(s[3]) && s[4] == '-'
    && IsDigit(s[5]) && IsDigit(s[6]) && s[7] == '-' && IsDigit(s[8]) && IsDigit(s[9])
  }

  /** `getFieldType`. */
  function GetFieldType(v: Value): (t: FieldType)
    ensures t == BooleanField <==> v.Bool?
    ensures t == NumberField <==> v.Num?
    ensures t == DateField <==> v.Str? && StartsLikeDate(v.s)
  {
    match v
    case Bool(_) => BooleanField
    case Num(_) => NumberField
    case Str(s) => if StartsLikeDate(s) then DateField else StringField
    case _ => StringField
  }

  /** Only the prefix decides: anything may follow an ISO date. */
  lemma DateWithTime()
    ensures GetFieldType(Str("2024-01-31T10:00:00Z")) == DateField
    ensures GetFieldType(Str("31/01/2024")) == StringField
  {
  }

  /** The fixed Portuguese headings. */
  const FieldLabels: map<string, string> := map[
    "id" := "ID", "userId" := "ID do Usuário", "username" := "Nome de Usuário", "email" := "Email",
    "webServiceId" := "ID do WebService", "tokenUser" := "Token do Usuário", "useToken" := "Usa Token",
    "emailSent" := "Email Enviado", "tokenExpiresAt" := "Token Expira Em", "description" := "Descrição",
    "status" := "Status", "created_at" := "Data de Criação"]

  /** `getFieldLabel`: the heading from the table, otherwise the key with its first character
      upper-cased. */
  function GetFieldLabel(key: string, upper: string -> string): (caption: string)
    ensures key in FieldLabels ==> caption == FieldLabels[key]
    ensures key !in FieldLabels ==> caption == Text.Capitalize(key, upper)
  {
    if key in FieldLabels then FieldLabels[key] else Text.Capitalize(key, upper)
  }

  const RequiredKeys: seq<string> := ["id", "created_at"]
  const DefaultKeys: seq<string> := ["username", "email", "description", "status"]

  /** The fields of the first record, in key order. */
  function Fields(first: Row, upper: string -> string): (fields: seq<ExportField>)
    ensures |fields| == |first|
    ensures forall i :: 0 <= i < |first| ==>
      && fields[i].key == first[i].0
      && fields[i].caption == GetFieldLabel(first[i].0, upper)
      && fields[i].kind == GetFieldType(first[i].1)
      && (fields[i].required <==> first[i].0 in RequiredKeys)
  {
    seq(|first|, i requires 0 <= i < |first| =>
      ExportField(first[i].0, GetFieldLabel(first[i].0, upper), GetFieldType(first[i].1), first[i].0 in RequiredKeys))
  }

  function FieldKeys(fields: seq<ExportField>): (keys: seq<string>)
    ensures |keys| == |fields|
    ensures forall i :: 0 <= i < |fields| ==> keys[i] == fields[i].key
  {
    seq(|fields|, i requires 0 <= i < |fields| => fields[i].key)
  }

  /** The keys of the required fields, in field order. */
  function RequiredFieldKeys(fields: seq<ExportField>): (keys: seq<string>)
    ensures forall k :: k in keys <==> exists i :: 0 <= i < |fields| && fields[i].required && fields[i].key == k
  {
    FieldKeys(Paging.Filter(fields, (f: ExportField) => f.required))
  }

  /** The keys selected when the dialog opens: the required fields and the four usual ones. */
  function DefaultSelection(fields: seq<ExportField>): (keys: seq<string>)
    ensures forall k :: k in keys <==>
      exists i :: 0 <= i < |fields| && fields[i].key == k && (fields[i].required || k in DefaultKeys)
  {
    FieldKeys(Paging.Filter(fields, (f: ExportField) => f.required || f.key in DefaultKeys))
  }

  /** `availableFields.find(f => f.key === key)`. */
  function FindField(fields: seq<ExportField>, key: string): (r: Option<ExportField>)
    ensures r.Some? ==> r.value in fields && r.value.key == key
    ensures r.None? ==> forall i :: 0 <= i < |fields| ==> fields[i].key != key
  {
    if fields == [] then None
    else if fields[0].key == key then Some(fields[0])
    else FindField(fields[1..], key)
  }

  /** JavaScript's falsy values among those modelled. */
  predicate Falsy(v: Value)
  {
    v == Bool(false) || v == Num(0) || v == Str("") || v == Missing
  }

  /** The four timestamp fields, shown in the local date-time format. */
  predicate IsTimestampField(field: string)
  {
    field == "created_at" || field == "tokenExpiresAt" || field == "updatedAt" || field == "createdAt"
  }

  /** The formatting after the missing-value default: timestamps by `localeDateTime`, booleans
      as Sim/Não, status, role and type by label, anything else as it is. */
  function Labelled(field: string, value: Value, localeDateTime: Value -> string): (cell: Value)
  {
    if IsTimestampField(field) && !Falsy(value) then Str(localeDateTime(value))
    else if value.Bool? then Str(if value.b then "Sim" else "Não")
    else if field == "status" then
      (if value == Str("success") then Str("Sucesso")
       else if value == Str("error") then Str("Erro")
       else if value == Str("pending") then Str("Pendente") else value)
    else if field == "role" then
      (if value == Str("admin") then Str("Administrador") else if value == Str("user") then Str("Usuário") else value)
    else if field == "type" then
      (if value == Str("html") then Str("HTML") else if value == Str("text") then Str("Texto") else value)
    else value
  }

  /** The cell as the workbook export writes it: `row[field] || ''` turns every falsy value,
      `false` and `0` included, into the empty text before the formatting. */
  function FormatCellAsWritten(field: string, v: Value, localeDateTime: Value -> string): (cell: Value)
    ensures Falsy(v) && !IsTimestampField(field) && field != "status" && field != "role" && field != "type"
      ==> cell == Str("")
  {
    Labelled(field, if Falsy(v) then Str("") else v, localeDateTime)
  }

  /** As written, `false` is exported as an empty cell and never as 'Não'. */
  lemma FalseExportsEmpty(field: string, localeDateTime: Value -> string)
    ensures FormatCellAsWritten(field, Bool(false), localeDateTime) == Str("") || field == "status" || field == "role" || field == "type"
    ensures FormatCellAsWritten("useToken", Bool(false), localeDateTime) == Str("")
    ensures forall b :: FormatCellAsWritten("emailSent", Bool(b), localeDateTime) != Str("Não")
  {
  }

  /** The cell with a missing value (null or undefined) alone defaulted to the empty text:
      `row[field] ?? ''`. */
  function FormatCell(field: string, v: Value, localeDateTime: Value -> string): (cell: Value)
    ensures v.Bool? && !IsTimestampField(field) ==> cell == Str(if v.b then "Sim" else "Não")
    ensures v == Missing && !IsTimestampField(field) && field != "status" && field != "role" && field != "type"
      ==> cell == Str("")
  {
    Labelled(field, if v == Missing then Str("") else v, localeDateTime)
  }

  /** With the missing-value default, every boolean is exported as Sim or Não, whatever the
      field, and a missing value is still an empty cell outside the labelled fields. */
  lemma BooleansExportAsSimNao(field: string, b: bool, localeDateTime: Value -> string)
    ensures FormatCell(field, Bool(b), localeDateTime) == Str(if b then "Sim" else "Não")
         || (IsTimestampField(field) && b)
    ensures !IsTimestampField(field) ==> FormatCell(field, Bool(b), localeDateTime) == Str(if b then "Sim" else "Não")
    ensures FormatCell(field, Missing, localeDateTime) == FormatCellAsWritten(field, Missing, localeDateTime)
  {
  }

  /** Wherever the value is truthy the two definitions agree. */
  lemma FormatCellAgreesOnTruthy(field: string, v: Value, localeDateTime: Value -> string)
    requires !Falsy(v)
    ensures FormatCell(field, v, localeDateTime) == FormatCellAsWritten(field, v, localeDateTime)
  {
  }

  /** Which cell formatting a row is built with: the export's own (`row[field] || ''`) or the
      corrected one (`row[field] ?? ''`). */
  datatype CellRule = AsWritten | Corrected

  function Cell(rule: CellRule, field: string, v: Value, localeDateTime: Value -> string): (cell: Value)
    ensures rule == AsWritten ==> cell == FormatCellAsWritten(field, v, localeDateTime)
    ensures rule == Corrected ==> cell == FormatCell(field, v, localeDateTime)
  {
    if rule == AsWritten then FormatCellAsWritten(field, v, localeDateTime) else FormatCell(field, v, localeDateTime)
  }

  /** The workbook row built by assigning one heading after another; a later field whose
      heading coincides overwrites the earlier cell. */
  function RowCells(row: Row, fields: seq<string>, upper: string -> string, localeDateTime: Value -> string,
                    rule: CellRule): map<string, Value>
    decreases |fields|
  {
    if fields == [] then map[]
    else
      var last := fields[|fields| - 1];
      RowCells(row, fields[..|fields| - 1], upper, localeDateTime, rule)[GetFieldLabel(last, upper) := Cell(rule, last, Lookup(row, last), localeDateTime)]
  }

  /** The row has one cell per heading, and a field whose heading no later field repeats has
      its own value there, formatted by the row's rule. */
  lemma {:induction false} RowCellsContent(row: Row, fields: seq<string>, upper: string -> string,
                                           localeDateTime: Value -> string, rule: CellRule, i: nat)
    requires i < |fields|
    requires forall j :: i < j < |fields| ==> GetFieldLabel(fields[j], upper) != GetFieldLabel(fields[i], upper)
    ensures GetFieldLabel(fields[i], upper) in RowCells(row, fields, upper, localeDateTime, rule)
    ensures rule == AsWritten ==>
      RowCells(row, fields, upper, localeDateTime, rule)[GetFieldLabel(fields[i], upper)]
        == FormatCellAsWritten(fields[i], Lookup(row, fields[i]), localeDateTime)
    ensures rule == Corrected ==>
      RowCells(row, fields, upper, localeDateTime, rule)[GetFieldLabel(fields[i], upper)]
        == FormatCell(fields[i], Lookup(row, fields[i]), localeDateTime)
    decreases |fields|
  {
    if i < |fields| - 1 {
      var init := fields[..|fields| - 1];
      assert init[i] == fields[i];
      forall j | i < j < |init| ensures GetFieldLabel(init[j], upper) != GetFieldLabel(init[i], upper) {
        assert init[j] == fields[j];
      }
      RowCellsContent(row, init, upper, localeDateTime, rule, i);
    }
  }

  /** A record whose `useToken` is `false`: the export as written leaves its 'Usa Token' cell
      empty, the corrected one writes 'Não'. */
  lemma FalseRowCell(localeDateTime: Value -> string)
    ensures RowCells([("useToken", Bool(false))], ["useToken"], (s: string) => s, localeDateTime, AsWritten)
         == map["Usa Token" := Str("")]
    ensures RowCells([("useToken", Bool(false))], ["useToken"], (s: string) => s, localeDateTime, Corrected)
         == map["Usa Token" := Str("Não")]
  {
    var fields := ["useToken"];
    assert fields[..0] == [];
  }

  /** Every cell of the row sits under the label of one of the fields. */
  lemma {:induction false} RowCellsKeyFrom(row: Row, fields: seq<string>, upper: string -> string,
                                           localeDateTime: Value -> string, rule: CellRule, h: string)
    requires h in RowCells(row, fields, upper, localeDateTime, rule)
    ensures exists j :: 0 <= j < |fields| && GetFieldLabel(fields[j], upper) == h
    decreases |fields|
  {
    if fields != [] {
      var n := |fields| - 1;
      if h == GetFieldLabel(fields[n], upper) {
        assert 0 <= n < |fields| && GetFieldLabel(fields[n], upper) == h;
      } else {
        var init := fields[..n];
        RowCellsKeyFrom(row, init, upper, localeDateTime, rule, h);
        var j :| 0 <= j < |init| && GetFieldLabel(init[j], upper) == h;
        assert fields[j] == init[j];
      }
    }
  }

  /** Every field's label is a cell of the row. */
  lemma {:induction false} RowCellsKeyOf(row: Row, fields: seq<string>, upper: string -> string,
                                         localeDateTime: Value -> string, rule: CellRule, j: nat)
    requires j < |fields|
    ensures GetFieldLabel(fields[j], upper) in RowCells(row, fields, upper, localeDateTime, rule)
    decreases |fields|
  {
    var n := |fields| - 1;
    if j < n {
      var init := fields[..n];
      assert init[j] == fields[j];
      RowCellsKeyOf(row, init, upper, localeDateTime, rule, j);
    }
  }

  lemma RowCellsKeys(row: Row, fields: seq<string>, upper: string -> string, localeDateTime: Value -> string,
                     rule: CellRule)
    ensures forall h :: h in RowCells(row, fields, upper, localeDateTime, rule) <==>
      exists j :: 0 <= j < |fields| && GetFieldLabel(fields[j], upper) == h
  {
    forall h | h in RowCells(row, fields, upper, localeDateTime, rule)
      ensures exists j :: 0 <= j < |fields| && GetFieldLabel(fields[j], upper) == h
    {
      RowCellsKeyFrom(row, fields, upper, localeDateTime, rule, h);
    }
    forall h | exists j :: 0 <= j < |fields| && GetFieldLabel(fields[j], upper) == h
      ensures h in RowCells(row, fields, upper, localeDateTime, rule)
    {
      var j :| 0 <= j < |fields| && GetFieldLabel(fields[j], upper) == h;
      RowCellsKeyOf(row, fields, upper, localeDateTime, rule, j);
    }
  }

  /** `formattedRow`, filled field by field with the given cell rule (`AsWritten` is the
      export's own loop). */
  method FormatRow(row: Row, fields: seq<string>, upper: string -> string, localeDateTime: Value -> string,
                   rule: CellRule)
    returns (formatted: map<string, Value>)
    ensures formatted == RowCells(row, fields, upper, localeDateTime, rule)
  {
    formatted := map[];
    var i := 0;
    while i < |fields|
      invariant 0 <= i <= |fields|
      invariant formatted == RowCells(row, fields[..i], upper, localeDateTime, rule)
    {
      var field := fields[i];
      RowCellsStep(row, fields, upper, localeDateTime, rule, i);
      formatted := formatted[GetFieldLabel(field, upper) := Cell(rule, field, Lookup(row, field), localeDateTime)];
      i := i + 1;
    }
    assert fields[..i] == fields;
  }

  /** One more field adds, or overwrites, the cell under its label. */
  lemma RowCellsStep(row: Row, fields: seq<string>, upper: string -> string, localeDateTime: Value -> string,
                     rule: CellRule, i: nat)
    requires i < |fields|
    ensures RowCells(row, fields[..i + 1], upper, localeDateTime, rule)
         == RowCells(row, fields[..i], upper, localeDateTime, rule)[GetFieldLabel(fields[i], upper) := Cell(rule, fields[i], Lookup(row, fields[i]), localeDateTime)]
  {
    assert fields[..i + 1][..i] == fields[..i];
  }

  /** The column width: the heading's length, at least 15, plus 2, capped at 50. */
  function ColumnWidth(heading: string): (w: nat)
    ensures 17 <= w <= 50
    ensures 15 <= |heading| <= 48 ==> w == |heading| + 2
  {
    var maxLength := if |heading| > 15 then |heading| else 15;
    var w := if maxLength + 2 > 10 then maxLength + 2 else 10;
    if w < 50 then w else 50
  }

  datatype Format = Xlsx | Csv

  function FormatName(format: Format): string
  {
    if format == Xlsx then "XLSX" else "CSV"
  }

  /** Where an export goes: the workbook writer or the owner's callback. */
  datatype Destination = Workbook(fields: seq<string>) | Callback(fields: seq<string>, format: Format)

  datatype Alert = ErrorAlert(message: string) | SuccessAlert(message: string)

  class Modal {
    var availableFields: seq<ExportField>
    var selectedFields: seq<string>
    var format: Format
    var loading: bool
    var alert: Option<Alert>

    constructor ()
      ensures availableFields == [] && selectedFields == [] && format == Xlsx && !loading && alert.None?
    {
      availableFields, selectedFields, format, loading, alert := [], [], Xlsx, false, None;
    }

    /** The effect on opening or on new data: fields and default selection come from the first
        record, only when the dialog is open and there are records; the alert is cleared in any
        case. */
    method Refresh(isOpen: bool, data: seq<Row>, upper: string -> string)
      modifies this
      ensures isOpen && data != [] ==>
        availableFields == Fields(data[0], upper) && selectedFields == DefaultSelection(availableFields)
      ensures !(isOpen && data != []) ==>
        availableFields == old(availableFields) && selectedFields == old(selectedFields)
      ensures alert.None? && format == old(format) && loading == old(loading)
    {
      if isOpen && data != [] {
        availableFields := Fields(data[0], upper);
        selectedFields := DefaultSelection(availableFields);
      }
      alert := None;
    }

    /** `handleFieldToggle`: a required field stays as it is; any other key is toggled. */
    method HandleFieldToggle(key: string)
      modifies this
      ensures FindField(availableFields, key).Some? && FindField(availableFields, key).value.required ==>
        selectedFields == old(selectedFields)
      ensures !(FindField(availableFields, key).Some? && FindField(availableFields, key).value.required) ==>
        selectedFields == Paging.Toggle(old(selectedFields), key)
      ensures availableFields == old(availableFields) && format == old(format) && alert == old(alert)
    {
      var field := FindField(availableFields, key);
      if field.Some? && field.value.required {
        return;
      }
      selectedFields := Paging.Toggle(selectedFields, key);
    }

    method HandleSelectAll()
      modifies this
      ensures selectedFields == FieldKeys(availableFields)
      ensures availableFields == old(availableFields) && format == old(format) && alert == old(alert)
    {
      selectedFields := FieldKeys(availableFields);
    }

    method HandleDeselectAll()
      modifies this
      ensures selectedFields == RequiredFieldKeys(availableFields)
      ensures availableFields == old(availableFields) && format == old(format) && alert == old(alert)
    {
      selectedFields := RequiredFieldKeys(availableFields);
    }

    /** `handleExport`: refused with an error when no field is selected; otherwise the
        selection goes to the workbook writer (xlsx) or the callback (csv), whose outcome sets
        the alert. */
    method HandleExport(outcome: Outcome<()>) returns (sent: Option<Destination>)
      modifies this
      ensures old(selectedFields) == [] ==>
        sent.None? && alert == Some(ErrorAlert("Selecione pelo menos um campo para exportar")) && loading == old(loading)
      ensures old(selectedFields) != [] ==>
        && sent == Some(if format == Xlsx then Workbook(selectedFields) else Callback(selectedFields, format))
        && !loading
        && (outcome.Success? ==> alert == Some(SuccessAlert("Dados exportados com sucesso em formato " + FormatName(format) + "!")))
        && (outcome.Failure? ==> alert == Some(ErrorAlert(OrElse(outcome.message, "Erro ao exportar dados"))))
      ensures selectedFields == old(selectedFields) && availableFields == old(availableFields) && format == old(format)
    {
      if selectedFields == [] {
        alert := Some(ErrorAlert("Selecione pelo menos um campo para exportar"));
        sent := None;
        return;
      }
      loading := true;
      alert := None;
      sent := Some(if format == Xlsx then Workbook(selectedFields) else Callback(selectedFields, format));
      if outcome.Success? {
        alert := Some(SuccessAlert("Dados exportados com sucesso em formato " + FormatName(format) + "!"));
      } else {
        alert := Some(ErrorAlert(OrElse(outcome.message, "Erro ao exportar dados")));
      }
      loading := false;
    }
  }

  /** Fields come from the keys of one record, so no two share a key. */
  predicate DistinctKeys(fields: seq<ExportField>)
  {
    forall i, j :: 0 <= i < j < |fields| ==> fields[i].key != fields[j].key
  }

  /** Once the required fields are selected (as they are after opening or deselect-all), no
      toggle removes one of them. */
  lemma RequiredFieldsStay(fields: seq<ExportField>, selected: seq<string>, key: string)
    requires DistinctKeys(fields)
    requires forall i :: 0 <= i < |fields| && fields[i].required ==> fields[i].key in selected
    ensures var after := if FindField(fields, key).Some? && FindField(fields, key).value.required
                         then selected else Paging.Toggle(selected, key);
            forall i :: 0 <= i < |fields| && fields[i].required ==> fields[i].key in after
  {
    forall i | 0 <= i < |fields| && fields[i].required && fields[i].key == key
      ensures FindField(fields, key).Some? && FindField(fields, key).value.required
    {
      FindFieldFirst(fields, key, i);
    }
  }

  /** Every field with the key is found, and the first one is the one returned; when all
      fields with the key are required, the field found is required. */
  lemma {:induction false} FindFieldFirst(fields: seq<ExportField>, key: string, i: nat)
    requires i < |fields| && fields[i].key == key && fields[i].required
    requires forall j :: 0 <= j < |fields| && fields[j].key == key ==> fields[j].required
    ensures FindField(fields, key).Some? && FindField(fields, key).value.required
    decreases i
  {
    if fields[0].key != key {
      forall j | 0 <= j < |fields[1..]| && fields[1..][j].key == key ensures fields[1..][j].required {
        assert fields[1..][j] == fields[j + 1];
      }
      FindFieldFirst(fields[1..], key, i - 1);
    }
  }
}
