/**
 * `CSVExporter.export` (modules/pagination_csv.py) without the file writer:
 * the field list, defaulted from the first item when none is given, and the
 * rows `csv.DictWriter` is handed, one per scraped element.
 */
module CsvExport {
  import opened Wrappers
  import opened Text
  import opened Html

  /** What `data[0]` raises on an empty item list when the fields are defaulted. */
  const NoFirstItem := "list index out of range"

  /** The element has the field: its text, or one of its attributes. */
  predicate HasField(item: Element, field: string)
  {
    field == "text" || field in item.attrs
  }

  /** `getattr(item, field, '')`. */
  function FieldOf(item: Element, field: string): (v: string)
    ensures field == "text" ==> v == item.text
    ensures field != "text" && field in item.attrs ==> v == item.attrs[field]
    ensures !HasField(item, field) ==> v == ""
  {
    if field == "text" then item.text else GetOr(item.attrs, field, "")
  }

  /** `['text', 'href'] if hasattr(data[0], 'href') else ['text']`. */
  function DefaultFields(data: seq<Element>): Result<seq<string>>
  {
    if data == [] then Err(NoFirstItem)
    else if HasField(data[0], "href") then Ok(["text", "href"])
    else Ok(["text"])
  }

  /** The fields written: the given ones, or the default when none are given. */
  function ResolveFields(data: seq<Element>, fields: seq<string>): Result<seq<string>>
  {
    if fields == [] then DefaultFields(data) else Ok(fields)
  }

  /** `{field: getattr(item, field, '') for field in fields}`. */
  function Row(item: Element, fields: seq<string>): map<string, string>
  {
    map field | field in fields :: FieldOf(item, field)
  }

  function Rows(data: seq<Element>, fields: seq<string>): seq<map<string, string>>
  {
    seq(|data|, i requires 0 <= i < |data| => Row(data[i], fields))
  }

  /** What is written to the file: the header (the field names) and the rows. */
  datatype Table = Table(header: seq<string>, rows: seq<map<string, string>>)

  function Export(data: seq<Element>, fields: seq<string>): Result<Table>
  {
    match ResolveFields(data, fields)
    case Err(message) => Err(message)
    case Ok(names) => Ok(Table(names, Rows(data, names)))
  }

  /**
   * With a non-empty field list the export succeeds, its header is that list,
   * and it has one row per item in item order; each row has exactly the given
   * fields, each holding the item's text or attribute, or '' when it lacks one.
   */
  lemma ExportRows(data: seq<Element>, fields: seq<string>)
    requires fields != []
    ensures var t := Export(data, fields);
      && t.Ok? && t.value.header == fields && |t.value.rows| == |data|
      && forall i, field :: 0 <= i < |data| ==>
           (field in t.value.rows[i] <==> field in fields)
           && (field in fields && HasField(data[i], field) ==>
                 t.value.rows[i][field] == (if field == "text" then data[i].text else data[i].attrs[field]))
           && (field in fields && !HasField(data[i], field) ==> t.value.rows[i][field] == "")
  {
  }

  /**
   * With no field list the fields are `text` and `href` when the first item has
   * an `href`, `text` alone otherwise, and an empty item list raises.
   */
  lemma DefaultFieldsChosen(data: seq<Element>)
    ensures Export(data, []).Err? <==> data == []
    ensures data != [] ==>
              Export(data, []).value.header == (if "href" in data[0].attrs then ["text", "href"] else ["text"])
    ensures data != [] ==> |Export(data, []).value.rows| == |data|
  {
  }

  /** Every row carries the text; a row's `href` cell is the item's link or ''. */
  lemma DefaultRowsCarryText(data: seq<Element>)
    requires data != []
    ensures var t := Export(data, []).value;
      forall i :: 0 <= i < |data| ==>
        && "text" in t.rows[i] && t.rows[i]["text"] == data[i].text
        && ("href" in t.rows[i] <==> "href" in data[0].attrs)
        && ("href" in t.rows[i] ==> t.rows[i]["href"] == GetOr(data[i].attrs, "href", ""))
  {
  }

  /** The field list `ScrapeThread.run` passes: the comma-separated setting, each part stripped. */
  function FieldsSetting(setting: string): (fields: seq<string>)
    ensures |fields| == |Split(setting, ',')|
    ensures forall k :: 0 <= k < |fields| ==> fields[k] == Strip(Split(setting, ',')[k])
  {
    var parts := Split(setting, ',');
    seq(|parts|, k requires 0 <= k < |parts| => Strip(parts[k]))
  }

  /** The fields handed over by `run` are never empty, so there the defaults never
      apply and the export never raises, even for an empty setting or no items. */
  lemma SettingNeverDefaults(data: seq<Element>, setting: string)
    ensures FieldsSetting(setting) != []
    ensures Export(data, FieldsSetting(setting)) == Ok(Table(FieldsSetting(setting), Rows(data, FieldsSetting(setting))))
    ensures setting == "" ==> FieldsSetting(setting) == [""]
  {
    assert Strip("") == "";
  }
}
