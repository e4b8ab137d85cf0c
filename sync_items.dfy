/**
 * tools/sync_items.js: `sync` turns the item CSV into an object of records
 * keyed by ID. Lines are split at every newline and commas at every comma
 * (no quoting); the first non-blank line holds the headers.
 */
module SyncItems {
  import opened Wrappers
  import opened Strings
  import opened Seqs

  /** A record field: the raw text, a boolean for exactly "true"/"false", or undefined past the row's end. */
  datatype Field = Text(s: string) | Flag(b: bool) | Missing

  /** One record: trimmed header name to field. */
  type Item = map<string, Field>

  /** `values[index]` with the boolean conversion. */
  function FieldAt(values: seq<string>, index: nat): (f: Field)
    ensures index >= |values| <==> f == Missing
    ensures f.Flag? ==> values[index] == (if f.b then "true" else "false")
    ensures f.Text? ==> f.s == values[index] && f.s != "true" && f.s != "false"
  {
    if index >= |values| then Missing
    else if values[index] == "true" then Flag(true)
    else if values[index] == "false" then Flag(false)
    else Text(values[index])
  }

  /** The record keys: the headers, trimmed. */
  function Keys(headers: seq<string>): (keys: seq<string>)
    ensures |keys| == |headers|
  {
    seq(|headers|, j requires 0 <= j < |headers| => Trim(headers[j]))
  }

  /** The record built from the first `n` keys, assigned left to right: a repeated key keeps its last field. */
  function RowItem(keys: seq<string>, values: seq<string>, n: nat): Item
    requires n <= |keys|
  {
    if n == 0 then map[] else RowItem(keys, values, n - 1)[keys[n - 1] := FieldAt(values, n - 1)]
  }

  /** `item.ID` used as a key: a non-empty text, or `true`, which becomes the key "true"; anything else is falsy. */
  function IdKey(item: Item): Option<string> {
    if "ID" !in item then None
    else match item["ID"]
      case Text(s) => if s != "" then Some(s) else None
      case Flag(b) => if b then Some("true") else None
      case Missing => None
  }

  /** The lines that are not blank after trimming, in order. */
  function Lines(content: string): seq<string> {
    Filter(Split(content, '\n'), l => |Trim(l)| > 0)
  }

  /** The record of each data line (every line after the header line), in order. */
  function Records(lines: seq<string>): seq<Item>
    requires |lines| > 0
  {
    var keys := Keys(Split(lines[0], ','));
    seq(|lines| - 1, i requires 0 <= i < |lines| - 1 => RowItem(keys, Split(lines[i + 1], ','), |keys|))
  }

  /** The first `n` records added in order: a later record with the same ID replaces the earlier one. */
  function Collect(rows: seq<Item>, n: nat): map<string, Item>
    requires n <= |rows|
  {
    if n == 0 then map[]
    else
      var items := Collect(rows, n - 1);
      if IdKey(rows[n - 1]).Some? then items[IdKey(rows[n - 1]).value := rows[n - 1]] else items
  }

  /** The `forEach` over the headers for one line. */
  method ParseRow(headers: seq<string>, line: string) returns (item: Item)
    ensures item == RowItem(Keys(headers), Split(line, ','), |headers|)
  {
    var values := Split(line, ',');
    ghost var keys := Keys(headers);
    item := map[];
    for index := 0 to |headers|
      invariant item == RowItem(keys, values, index)
    {
      var val := FieldAt(values, index);
      var key := HeaderKey(headers, index);
      item := item[key := val];
    }
  }

  /** `header.trim()` for the header at `index`. */
  method HeaderKey(headers: seq<string>, index: nat) returns (key: string)
    requires index < |headers|
    ensures key == Keys(headers)[index]
  {
    key := Trim(headers[index]);
  }

  /**
   * `sync`: `content` is the CSV text, absent when the file does not exist
   * (an error is logged and nothing is written). A file with no non-blank
   * line makes `lines[0]` undefined and the header split throws.
   */
  method Sync(content: Option<string>) returns (r: Result<map<string, Item>>)
    ensures content.None? ==> r.Err?
    ensures content.Some? && |Lines(content.value)| == 0 ==> r.Err?
    ensures content.Some? && |Lines(content.value)| > 0 ==>
      var lines := Lines(content.value);
      r == Ok(Collect(Records(lines), |lines| - 1))
  {
    if content.None? {
      return Err("CSV not found");
    }
    var lines := Lines(content.value);
    if |lines| == 0 {
      return Err("Cannot read properties of undefined (reading 'split')");
    }
    var items := CollectLines(lines);
    r := Ok(items);
  }

  /** The loop over the data lines, with the header line already split. */
  method CollectLines(lines: seq<string>) returns (items: map<string, Item>)
    requires |lines| > 0
    ensures items == Collect(Records(lines), |lines| - 1)
  {
    var headers := Split(lines[0], ',');
    ghost var rows := Records(lines);
    items := map[];
    for i := 1 to |lines|
      invariant items == Collect(rows, i - 1)
    {
      var item := ParseRow(headers, lines[i]);
      assert item == rows[i - 1];
      var id := IdKey(item);
      if id.Some? {
        items := items[id.value := item];
      }
    }
  }

  // Properties of the parser.

  /** No blank line survives, and every non-blank line does, in order. */
  lemma LinesSpec(content: string)
    ensures forall l :: l in Lines(content) ==> |Trim(l)| > 0 && l in Split(content, '\n')
    ensures forall l :: l in Split(content, '\n') && |Trim(l)| > 0 ==> l in Lines(content)
    ensures IsSubsequence(Lines(content), Split(content, '\n'))
  {
    forall l | l in Split(content, '\n') && |Trim(l)| > 0 ensures l in Lines(content) {
      FilterKeeps(Split(content, '\n'), l => |Trim(l)| > 0, l);
    }
    FilterIsSubsequence(Split(content, '\n'), l => |Trim(l)| > 0);
  }

  /** The record's keys are exactly the trimmed headers. */
  lemma {:induction false} RowItemKeys(keys: seq<string>, values: seq<string>, n: nat)
    requires n <= |keys|
    ensures forall j :: 0 <= j < n ==> keys[j] in RowItem(keys, values, n)
    ensures forall key :: key in RowItem(keys, values, n) ==> exists j :: 0 <= j < n && keys[j] == key
  {
    if n > 0 {
      RowItemKeys(keys, values, n - 1);
    }
  }

  /** Under a header's name the record holds that column's field, unless a later header has the same name. */
  lemma {:induction false} RowItemField(keys: seq<string>, values: seq<string>, n: nat, j: nat)
    requires j < n <= |keys|
    requires forall k :: j < k < n ==> keys[k] != keys[j]
    ensures keys[j] in RowItem(keys, values, n) && RowItem(keys, values, n)[keys[j]] == FieldAt(values, j)
  {
    if j < n - 1 {
      RowItemField(keys, values, n - 1, j);
    }
  }

  /** A key is present exactly when some record has that ID. */
  lemma {:induction false} CollectKeys(rows: seq<Item>, n: nat, key: string)
    requires n <= |rows|
    ensures key in Collect(rows, n) <==> exists i :: 0 <= i < n && IdKey(rows[i]) == Some(key)
  {
    if n > 0 {
      CollectKeys(rows, n - 1, key);
    }
  }

  /** On a duplicate ID the later row wins: the key holds the last record with that ID. */
  lemma {:induction false} LaterRowWins(rows: seq<Item>, n: nat, i: nat, key: string)
    requires i < n <= |rows|
    requires IdKey(rows[i]) == Some(key)
    requires forall k :: i < k < n ==> IdKey(rows[k]) != Some(key)
    ensures key in Collect(rows, n) && Collect(rows, n)[key] == rows[i]
  {
    if i < n - 1 {
      LaterRowWins(rows, n - 1, i, key);
    }
  }

  /** Rows whose ID is empty or missing are dropped: every stored record has a truthy ID equal to its key. */
  lemma {:induction false} StoredHaveIds(rows: seq<Item>, n: nat)
    requires n <= |rows|
    ensures forall key :: key in Collect(rows, n) ==> IdKey(Collect(rows, n)[key]) == Some(key)
  {
    if n > 0 {
      StoredHaveIds(rows, n - 1);
    }
  }

  /** Commas are never escaped: a quoted field holding a comma is split in two. */
  lemma QuotedCommaSplits()
    ensures |Split("\"a,b\"", ',')| == 2
  {
    SplitCount("\"a,b\"", ',');
    assert multiset("\"a,b\"")[','] == 1;
  }

  /** A row has one more field than it has commas. */
  lemma FieldsPerRow(line: string)
    ensures |Split(line, ',')| == 1 + multiset(line)[',']
  {
    SplitCount(line, ',');
  }
}
