/**
 * The records the workbook upload writes: the uploaded file with its processing status and
 * counters, the stored rows with their Jira link, and the column mappings. A row's data is a
 * JSON object built from one sheet row: an ordered list of entries whose keys are distinct.
 */
module Models {
  import opened Wrappers
  import opened Queries

  // ---------------------------------------------------------------------------
  // ExcelFile.status

  /** The four processing states of an uploaded file. */
  datatype Status = Pending | Processing | Completed | Failed

  /** The value stored in the `status` column. */
  function StatusName(s: Status): string {
    match s
    case Pending => "pending"
    case Processing => "processing"
    case Completed => "completed"
    case Failed => "failed"
  }

  /** The `choices` of the `status` column: exactly the four names are accepted. */
  function StatusOf(name: string): (r: Option<Status>)
    ensures r.Some? ==> StatusName(r.value) == name
    ensures r.None? <==> name != "pending" && name != "processing" && name != "completed" && name != "failed"
  {
    if name == "pending" then Some(Pending)
    else if name == "processing" then Some(Processing)
    else if name == "completed" then Some(Completed)
    else if name == "failed" then Some(Failed)
    else None
  }

  /** Every state is stored under a name that reads back as that state. */
  lemma StatusNameRoundTrip(s: Status)
    ensures StatusOf(StatusName(s)) == Some(s)
  {
    match s
    case Pending =>
    case Processing =>
    case Completed =>
    case Failed =>
  }

  /** A freshly created file is waiting to be processed. */
  const DefaultStatus := Pending

  // ---------------------------------------------------------------------------
  // ExcelRow.data

  /** A JSON scalar held in a row's data. */
  datatype Value =
    | Null
    | Str(text: string)
    | Num(literal: string)     // an int or float, carried with its `str()` rendering
    | Bool(flag: bool)

  /** `f"{value}"`. */
  function Render(v: Value): string {
    match v
    case Null => "None"
    case Str(t) => t
    case Num(l) => l
    case Bool(b) => if b then "True" else "False"
  }

  datatype Entry = Entry(key: string, value: Value)

  /** The keys of a JSON object, in order. */
  function Keys(data: seq<Entry>): (ks: seq<string>)
    ensures |ks| == |data| && forall i :: 0 <= i < |data| ==> ks[i] == data[i].key
  {
    if data == [] then [] else Keys(data[..|data| - 1]) + [data[|data| - 1].key]
  }

  /** `data.get(key)`: the value of the first entry with that key. */
  function Lookup(data: seq<Entry>, key: string): (r: Option<Value>)
    ensures r.None? <==> key !in Keys(data)
    ensures r.Some? ==> exists i :: 0 <= i < |data| && data[i] == Entry(key, r.value)
  {
    if data == [] then None
    else if data[0].key == key then Some(data[0].value)
    else
      assert Keys(data) == [data[0].key] + Keys(data[1..]);
      var r := Lookup(data[1..], key);
      assert r.Some? ==> exists i :: 0 <= i < |data| - 1 && data[1..][i] == Entry(key, r.value);
      r
  }

  /** The position of the first entry with `key`, or the length when there is none. */
  function KeyIndex(data: seq<Entry>, key: string): (k: nat)
    ensures k <= |data|
    ensures k < |data| ==> data[k].key == key
    ensures forall i :: 0 <= i < k ==> data[i].key != key
  {
    if data == [] then 0
    else if data[0].key == key then 0
    else KeyIndex(data[1..], key) + 1
  }

  /**
   * `data[key] = value`: a new key is appended, an existing key keeps its place and takes the
   * new value.
   */
  function Put(data: seq<Entry>, key: string, v: Value): seq<Entry> {
    var k := KeyIndex(data, key);
    if k < |data| then data[k := Entry(key, v)] else data + [Entry(key, v)]
  }

  /** A `Put` keeps the keys in place and appends a key it has not seen. */
  lemma PutKeys(data: seq<Entry>, key: string, v: Value)
    ensures Keys(Put(data, key, v)) == if key in Keys(data) then Keys(data) else Keys(data) + [key]
  {
  }

  /** After a `Put`, the key reads back its new value and every other key its old one. */
  lemma PutThenLookup(data: seq<Entry>, key: string, v: Value, other: string)
    requires NoDuplicates(Keys(data))
    ensures NoDuplicates(Keys(Put(data, key, v)))
    ensures Lookup(Put(data, key, v), key) == Some(v)
    ensures other != key ==> Lookup(Put(data, key, v), other) == Lookup(data, other)
  {
    PutKeys(data, key, v);
    PutLookupSame(data, key, v);
    if other != key && other in Keys(data) {
      PutLookupOther(data, key, v, other);
    }
  }

  lemma PutLookupSame(data: seq<Entry>, key: string, v: Value)
    requires NoDuplicates(Keys(Put(data, key, v)))
    ensures Lookup(Put(data, key, v), key) == Some(v)
  {
    var r := Put(data, key, v);
    var k := KeyIndex(data, key);
    assert r[k] == Entry(key, v);
    LookupAt(r, k);
  }

  lemma PutLookupOther(data: seq<Entry>, key: string, v: Value, other: string)
    requires NoDuplicates(Keys(data)) && NoDuplicates(Keys(Put(data, key, v)))
    requires other != key && other in Keys(data)
    ensures Lookup(Put(data, key, v), other) == Lookup(data, other)
  {
    var r := Put(data, key, v);
    var j := KeyIndex(data, other);
    assert r[j] == data[j];
    LookupAt(data, j);
    LookupAt(r, j);
  }

  /** In an object with distinct keys, the entry at position `k` is what its key reads. */
  lemma {:induction false} LookupAt(data: seq<Entry>, k: int)
    requires NoDuplicates(Keys(data)) && 0 <= k < |data|
    ensures Lookup(data, data[k].key) == Some(data[k].value)
  {
    if k > 0 {
      assert Keys(data)[0] != Keys(data)[k];
      assert Keys(data[1..]) == Keys(data)[1..];
      LookupAt(data[1..], k - 1);
    }
  }

  // ---------------------------------------------------------------------------
  // ExcelRow.get_data_preview

  /** Python's `s[:m]`: a negative bound counts back from the end. */
  function PrefixSlice(s: string, m: int): (r: string)
    ensures |r| <= |s| && r == s[..|r|]
    ensures m >= 0 ==> |r| == if m < |s| then m else |s|
    ensures m < 0 ==> |r| == if |s| + m > 0 then |s| + m else 0
  {
    if m >= 0 then (if m < |s| then s[..m] else s)
    else if |s| + m > 0 then s[..|s| + m]
    else ""
  }

  /**
   * `get_data_preview`: the first `maxLength` characters of the row's JSON text, followed by
   * "..." exactly when the text is longer than that; a text that fits is shown unchanged.
   */
  function DataPreview(json: string, maxLength: int := 100): (p: string)
    ensures |json| > maxLength ==> p == PrefixSlice(json, maxLength) + "..."
    ensures |json| <= maxLength ==> p == json
  {
    var preview := PrefixSlice(json, maxLength);
    if |json| > maxLength then preview + "..." else preview
  }

  /** The preview starts with the text's first `maxLength` characters and is at most three
      characters longer than `maxLength`. */
  lemma DataPreviewBounds(json: string, maxLength: int)
    requires maxLength >= 0
    ensures var p := DataPreview(json, maxLength);
            |p| <= maxLength + 3
            && (|json| > maxLength ==> |p| == maxLength + 3 && p[..maxLength] == json[..maxLength] && p[maxLength..] == "...")
  {
  }

  /** With a negative bound, the slice drops that many characters from the end and the
      ellipsis is always added. */
  lemma DataPreviewNegative(json: string, maxLength: int)
    requires maxLength < 0
    ensures var p := DataPreview(json, maxLength);
            p == PrefixSlice(json, maxLength) + "..." && |p| == (if |json| + maxLength > 0 then |json| + maxLength else 0) + 3
  {
  }

  // ---------------------------------------------------------------------------
  // The records

  /** An instant, as `timezone.now()` gives it. */
  type Instant = int

  /** A file as it arrives with the upload request. */
  datatype Upload = Upload(name: string)

  /** `ExcelColumnMapping`: one sheet column and the field name derived from it. */
  datatype ColumnMapping = ColumnMapping(excelColumn: string, dbField: string, order: int)

  /** The columns of an `ExcelFile` that `save()` writes. */
  datatype Snapshot = Snapshot(status: Status, totalRows: int, processedRows: int, errorMessage: Option<string>)

  /**
   * `ExcelRow`: one data row of a sheet. Its number and data are fixed at creation; the Jira
   * link is filled in later.
   */
  class ExcelRow {
    const id: nat
    const rowNumber: int
    const data: seq<Entry>
    var jiraKey: Option<string>
    var jiraUrl: Option<string>
    var jiraCreatedAt: Option<Instant>

    /** `ExcelRow.objects.create(...)`; `data` defaults to the empty object. */
    constructor (id: nat, rowNumber: int, data: seq<Entry> := [])
      ensures this.id == id && this.rowNumber == rowNumber && this.data == data
      ensures jiraKey == None && jiraUrl == None && jiraCreatedAt == None
    {
      this.id := id;
      this.rowNumber := rowNumber;
      this.data := data;
      jiraKey := None;
      jiraUrl := None;
      jiraCreatedAt := None;
    }
  }

  /**
   * `ExcelFile`: an uploaded workbook, its processing status and row counters, with the
   * mappings and rows that point to it. `saves` lists every state written by `save()`,
   * oldest first: it is what a concurrent reader of the record can observe.
   */
  class ExcelFile {
    var fileName: string
    const file: Upload
    var totalRows: int
    var processedRows: int
    var status: Status
    var errorMessage: Option<string>
    var mappings: seq<ColumnMapping>
    var rows: seq<ExcelRow>
    var saves: seq<Snapshot>

    /** The state `save()` writes. */
    function Current(): Snapshot
      reads this
    {
      Snapshot(status, totalRows, processedRows, errorMessage)
    }

    /** `ExcelFile.objects.create(...)`: the column defaults, written once. */
    constructor (fileName: string, file: Upload)
      ensures this.fileName == fileName && this.file == file
      ensures status == DefaultStatus && totalRows == 0 && processedRows == 0 && errorMessage == None
      ensures mappings == [] && rows == []
      ensures saves == [Snapshot(Pending, 0, 0, None)]
    {
      this.fileName := fileName;
      this.file := file;
      totalRows := 0;
      processedRows := 0;
      status := DefaultStatus;
      errorMessage := None;
      mappings := [];
      rows := [];
      saves := [Snapshot(Pending, 0, 0, None)];
    }

    /** `save()`: writes the current state. */
    method Save()
      modifies this`saves
      ensures saves == old(saves) + [Current()]
    {
      saves := saves + [Current()];
    }
  }
}
