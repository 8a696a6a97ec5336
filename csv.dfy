/** The two delimited-text readers of docs/script.js: `parseKeyValueCSV`, which
    turns the general-parameters text into a name-to-value map, and
    `parseDataCSV`, which turns the income-limit and rate-grid texts into lists
    of records keyed by the header's column names. Neither supports quoting. */
module Csv {
  import opened Wrappers
  import opened JsText
  import opened Lists

  /** A cell after coercion: a number when `Number()` accepts the text,
      otherwise a string; `Undefined` where a key/value line has no value. */
  datatype Value = Num(n: real) | Str(s: string) | Undefined

  /** A parsed table row: a JavaScript object from column name to cell. */
  type Record = map<string, Value>

  /** Property access on a parsed object: `undefined` when the key is absent. */
  function Get(r: map<string, Value>, key: string): (v: Value)
  {
    if key in r then r[key] else Undefined
  }

  /** `obj[key] || 0` used as a number: the number the key holds, and 0 when
      the key is absent or `undefined`. A key holding text reads as 0 too. */
  function NumberOrZero(m: map<string, Value>, key: string): (x: real)
    ensures key !in m ==> x == 0.0
    ensures key in m && m[key].Num? ==> x == m[key].n
  {
    match Get(m, key)
    case Num(x) => x
    case _ => 0.0
  }

  /** Whether position `j` holds the last occurrence of its key. */
  predicate IsLastOccurrence(keys: seq<string>, j: nat)
    requires j < |keys|
  {
    forall l :: j < l < |keys| ==> keys[l] != keys[j]
  }

  /** The object built by assigning `obj[keys[j]] = vals[j]` for j = 0, 1, …
      into `{}`: its keys are exactly the keys assigned, and each holds the value
      of its last assignment. */
  function LastWins<V>(keys: seq<string>, vals: seq<V>): (m: map<string, V>)
    requires |keys| == |vals|
    ensures forall k :: k in m <==> k in keys
    ensures forall j :: 0 <= j < |keys| && IsLastOccurrence(keys, j) ==> m[keys[j]] == vals[j]
  {
    if keys == [] then map[]
    else
      var n := |keys| - 1;
      var ks, vs := keys[..n], vals[..n];
      var r := LastWins(ks, vs)[keys[n] := vals[n]];
      assert forall k :: k in r <==> k in keys by {
        assert keys == ks + [keys[n]];
      }
      assert forall j :: 0 <= j < |keys| && IsLastOccurrence(keys, j) ==> r[keys[j]] == vals[j] by {
        forall j | 0 <= j < |keys| && IsLastOccurrence(keys, j) ensures r[keys[j]] == vals[j] {
          if j < n {
            assert keys[j] != keys[n];
            assert IsLastOccurrence(ks, j);
          }
        }
      }
      r
  }

  /** `text.trim().split('\n')`. */
  function Lines(text: string): (lines: seq<string>)
    ensures |lines| >= 1
  {
    Split(Trim(text), '\n')
  }

  /** `isNaN(Number(v)) ? v : Number(v)`: the number, or the raw text untouched. */
  function NumberOrRaw(v: string): (r: Value)
  {
    match NumberOf(v)
    case Some(x) => Num(x)
    case None => Str(v)
  }

  /** `isNaN(Number(v)) ? v.trim() : Number(v)`: the number, or the trimmed text. */
  function NumberOrTrimmed(v: string): (r: Value)
  {
    match NumberOf(v)
    case Some(x) => Num(x)
    case None => Str(Trim(v))
  }

  /** The key of a general-parameters line: its first comma field, trimmed. */
  function KeyOf(line: string): string {
    Trim(Split(line, ',')[0])
  }

  /** The value of a general-parameters line: its second comma field, coerced;
      `undefined` when the line has no comma. Later fields are ignored. */
  function ValueOf(line: string): (v: Value)
  {
    var fields := Split(line, ',');
    if |fields| < 2 then Undefined else NumberOrRaw(fields[1])
  }

  /** The lines after the header. */
  function Entries(text: string): seq<string> {
    Lines(text)[1..]
  }

  /** The key of every entry, in order. */
  function EntryKeys(entries: seq<string>): (ks: seq<string>)
    ensures |ks| == |entries|
  {
    if entries == [] then [] else [KeyOf(entries[0])] + EntryKeys(entries[1..])
  }

  /** The value of every entry, in order. */
  function EntryValues(entries: seq<string>): (vs: seq<Value>)
    ensures |vs| == |entries|
  {
    if entries == [] then [] else [ValueOf(entries[0])] + EntryValues(entries[1..])
  }

  lemma {:induction false} EntryKeyAt(entries: seq<string>, i: nat)
    requires i < |entries|
    ensures EntryKeys(entries)[i] == KeyOf(entries[i])
  {
    if i > 0 {
      EntryKeyAt(entries[1..], i - 1);
      assert entries[1..][i - 1] == entries[i];
    }
  }

  lemma {:induction false} EntryValueAt(entries: seq<string>, i: nat)
    requires i < |entries|
    ensures EntryValues(entries)[i] == ValueOf(entries[i])
  {
    if i > 0 {
      EntryValueAt(entries[1..], i - 1);
      assert entries[1..][i - 1] == entries[i];
    }
  }

  /** `parseKeyValueCSV`: the general-parameters text as a name-to-value map. */
  function ParseKeyValueCSV(text: string): (m: map<string, Value>)
    ensures forall k :: k in m <==> k in EntryKeys(Entries(text))
  {
    var entries := Entries(text);
    LastWins(EntryKeys(entries), EntryValues(entries))
  }

  /** The header line is dropped, the keys are exactly the entries' trimmed
      first fields, and a key that repeats takes the value of its last line. */
  lemma ParseKeyValueCSVSpec(text: string, i: nat)
    requires i < |Entries(text)|
    ensures KeyOf(Entries(text)[i]) in ParseKeyValueCSV(text)
    ensures (forall l :: i < l < |Entries(text)| ==> KeyOf(Entries(text)[l]) != KeyOf(Entries(text)[i]))
            ==> ParseKeyValueCSV(text)[KeyOf(Entries(text)[i])] == ValueOf(Entries(text)[i])
  {
    var entries := Entries(text);
    var keys := EntryKeys(entries);
    EntryKeyAt(entries, i);
    EntryValueAt(entries, i);
    assert keys[i] in keys;
    if forall l :: i < l < |entries| ==> KeyOf(entries[l]) != KeyOf(entries[i]) {
      forall l | i < l < |entries| ensures keys[l] != keys[i] {
        EntryKeyAt(entries, l);
      }
      assert IsLastOccurrence(keys, i);
    }
  }

  /** Every key of the parsed map comes from some entry line. */
  lemma ParseKeyValueCSVKeys(text: string, k: string)
    requires k in ParseKeyValueCSV(text)
    ensures exists i :: 0 <= i < |Entries(text)| && KeyOf(Entries(text)[i]) == k
  {
    var entries := Entries(text);
    var keys := EntryKeys(entries);
    assert k in keys;
    var i :| 0 <= i < |keys| && keys[i] == k;
    EntryKeyAt(entries, i);
  }

  /** Why `parseDataCSV` threw: the data line at index `line` (the header is
      line 0) has fewer comma fields than the header, so reading a missing field
      calls `trim` on `undefined`. */
  datatype ParseError = ShortRow(line: nat)

  /** The header's column names, each trimmed. */
  function Header(lines: seq<string>): (h: seq<string>)
    requires |lines| >= 1
    ensures |h| == |Split(lines[0], ',')|
  {
    var cells := Split(lines[0], ',');
    seq(|cells|, j requires 0 <= j < |cells| => Trim(cells[j]))
  }

  /** Each header name is the trimmed comma field of the first line at its position. */
  lemma HeaderNames(lines: seq<string>)
    requires |lines| >= 1
    ensures forall j :: 0 <= j < |Header(lines)| ==> Header(lines)[j] == Trim(Split(lines[0], ',')[j])
  {
  }

  /** Every field coerced with `NumberOrTrimmed`, in order. */
  function Coerced(fields: seq<string>): (vs: seq<Value>)
    ensures |vs| == |fields|
  {
    if fields == [] then [] else [NumberOrTrimmed(fields[0])] + Coerced(fields[1..])
  }

  /** One record from a data line's fields: the header names in order, each
      given the coerced field at its position. */
  function MakeRecord(header: seq<string>, fields: seq<string>): (r: Record)
    requires |fields| >= |header|
  {
    LastWins(header, Coerced(fields[..|header|]))
  }

  /** The comma fields of every line, `line.split(',')`. */
  function Rows(lines: seq<string>): (rows: seq<seq<string>>)
    ensures |rows| == |lines|
    ensures forall k :: 0 <= k < |lines| ==> rows[k] == Split(lines[k], ',')
  {
    seq(|lines|, k requires 0 <= k < |lines| => Split(lines[k], ','))
  }

  /** `parseDataCSV`: one record per line after the header, each record's keys
      exactly the trimmed header names; it fails (the JavaScript throws) exactly
      when some data line has fewer fields than the header, and then names the
      first such line. */
  function ParseDataCSV(text: string): (r: Result<seq<Record>, ParseError>)
    ensures var lines := Lines(text); var header := Header(lines);
      (r.Ok? <==> forall k :: 1 <= k < |lines| ==> |Split(lines[k], ',')| >= |header|)
      && (r.Ok? ==> |r.value| == |lines| - 1)
      && (r.Ok? ==> forall k, h :: 0 <= k < |r.value| ==> (h in r.value[k] <==> h in header))
      && (r.Err? ==> 1 <= r.error.line < |lines| && |Split(lines[r.error.line], ',')| < |header|)
      && (r.Err? ==> forall k :: 1 <= k < r.error.line ==> |Split(lines[k], ',')| >= |header|)
  {
    var lines := Lines(text);
    var header := Header(lines);
    var rows := Rows(lines)[1..];
    match FindFirst(rows, (fields: seq<string>) => |fields| < |header|)
    case Some(k) => Err(ShortRow(k + 1))
    case None =>
      Ok(seq(|rows|, k requires 0 <= k < |rows| => MakeRecord(header, rows[k])))
  }

  /** A record holds exactly the header's names, each (at its last position in
      the header) bound to the coerced field at that position. */
  lemma MakeRecordFields(header: seq<string>, fields: seq<string>)
    requires |fields| >= |header|
    ensures forall h :: h in MakeRecord(header, fields) <==> h in header
    ensures forall j :: 0 <= j < |header| && IsLastOccurrence(header, j) ==>
              MakeRecord(header, fields)[header[j]] == NumberOrTrimmed(fields[j])
  {
    CoercedAt(fields[..|header|]);
  }

  lemma {:induction false} CoercedAt(fields: seq<string>)
    ensures forall j :: 0 <= j < |fields| ==> Coerced(fields)[j] == NumberOrTrimmed(fields[j])
  {
    if fields != [] {
      CoercedAt(fields[1..]);
    }
  }

  /** The field values of a parsed record: each column (its last occurrence in
      the header) holds the number its cell spells, or the cell's trimmed text. */
  lemma DataCSVFields(text: string, k: nat, j: nat)
    requires ParseDataCSV(text).Ok?
    requires k < |ParseDataCSV(text).value|
    requires j < |Header(Lines(text))| && IsLastOccurrence(Header(Lines(text)), j)
    ensures var lines := Lines(text);
      ParseDataCSV(text).value[k][Header(lines)[j]] == NumberOrTrimmed(Split(lines[k + 1], ',')[j])
  {
    var lines := Lines(text);
    var header := Header(lines);
    var rows := Rows(lines)[1..];
    assert rows[k] == Split(lines[k + 1], ',');
    assert ParseDataCSV(text).value[k] == MakeRecord(header, rows[k]);
    MakeRecordFields(header, rows[k]);
  }
}
