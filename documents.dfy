/** Values that travel between the browser and the route handlers: multipart form
    entries on the server, stored profile documents, and client-side form values. */
module Documents {
  import opened Wrappers
  import Collection

  /** An uploaded file as the multipart parser presents it: its client-side name and size in bytes. */
  datatype Upload = Upload(name: string, size: nat)

  /** The value of one multipart form entry: a text field or a file. */
  datatype FormValue = Text(text: string) | File(file: Upload)

  datatype FormEntry = FormEntry(key: string, value: FormValue)

  /** A field of a stored document: a form value, or `new Date(arg)` of a form value
      (`None` standing for `null`). Date parsing itself is not modelled. */
  datatype DocValue = Scalar(value: FormValue) | DateOf(arg: Option<FormValue>)

  /** A document: field name to value. */
  type Doc = map<string, DocValue>

  /** The text value `s` as a document field. */
  function Str(s: string): DocValue { Scalar(Text(s)) }

  /** Filter `{ key: s }`: the document has field `key` holding the string `s`. */
  predicate HasField(d: Doc, key: string, s: string) {
    key in d && d[key] == Str(s)
  }

  function KeyIs(key: string): FormEntry -> bool {
    (e: FormEntry) => e.key == key
  }

  /** `formData.get(key)`: the value of the first entry with that key. */
  function FormGet(entries: seq<FormEntry>, key: string): (r: Option<FormValue>)
    ensures r.None? <==> forall i :: 0 <= i < |entries| ==> entries[i].key != key
    ensures r.Some? ==> FormEntry(key, r.value) in entries
    ensures r.Some? ==> exists i :: 0 <= i < |entries| && entries[i] == FormEntry(key, r.value) &&
                                    forall j :: 0 <= j < i ==> entries[j].key != key
  {
    match Collection.FindOne(entries, KeyIs(key))
    case None => None
    case Some(e) => Some(e.value)
  }

  /** Every key that occurs in `entries` is in `m`. */
  ghost predicate CoversKeys(entries: seq<FormEntry>, m: Doc) {
    forall k :: k in m <==> exists i :: 0 <= i < |entries| && entries[i].key == k
  }

  /** `m` holds, for each key, the value of its last entry in `entries`. */
  ghost predicate KeepsLast(entries: seq<FormEntry>, m: Doc) {
    forall i :: 0 <= i < |entries| && (forall j :: i < j < |entries| ==> entries[j].key != entries[i].key)
      ==> entries[i].key in m && m[entries[i].key] == Scalar(entries[i].value)
  }

  /** `Object.fromEntries(formData.entries())`: every key that occurs, bound to the value of
      its LAST entry. */
  function FromEntries(entries: seq<FormEntry>): (m: Doc)
    ensures forall k :: k in m <==> exists i :: 0 <= i < |entries| && entries[i].key == k
    ensures forall i :: 0 <= i < |entries| && (forall j :: i < j < |entries| ==> entries[j].key != entries[i].key)
              ==> entries[i].key in m && m[entries[i].key] == Scalar(entries[i].value)
    decreases |entries|
  {
    if |entries| == 0 then map[]
    else
      var m := FromEntries(entries[..|entries| - 1]);
      FromEntriesStep(entries, m);
      m[entries[|entries| - 1].key := Scalar(entries[|entries| - 1].value)]
  }

  /** Binding the last entry over the map of all earlier ones gives the map of all entries. */
  lemma FromEntriesStep(entries: seq<FormEntry>, m: Doc)
    requires |entries| > 0
    requires CoversKeys(entries[..|entries| - 1], m) && KeepsLast(entries[..|entries| - 1], m)
    ensures var last := entries[|entries| - 1];
      CoversKeys(entries, m[last.key := Scalar(last.value)]) && KeepsLast(entries, m[last.key := Scalar(last.value)])
  {
    var init, last := entries[..|entries| - 1], entries[|entries| - 1];
    var m' := m[last.key := Scalar(last.value)];
    assert forall i :: 0 <= i < |init| ==> init[i] == entries[i];
    forall k | k in m'
      ensures exists i :: 0 <= i < |entries| && entries[i].key == k
    {
      if k != last.key {
        var i :| 0 <= i < |init| && init[i].key == k;
        assert entries[i].key == k;
      } else {
        assert entries[|entries| - 1].key == k;
      }
    }
  }

  /** Client-side form or profile values, keys in object order. A key that is absent reads
      as "", which every use in the components treats exactly like an absent key. */
  type Fields = seq<(string, string)>

  /** The value of `key` in `values`, "" when absent. */
  function Get(values: Fields, key: string): (r: string)
    ensures r != "" ==> (key, r) in values
    ensures (forall i :: 0 <= i < |values| ==> values[i].0 != key) ==> r == ""
  {
    if |values| == 0 then ""
    else if values[0].0 == key then values[0].1
    else Get(values[1..], key)
  }

  /** The keys of an object's own properties: no key occurs twice. */
  ghost predicate DistinctKeys(values: Fields) {
    forall i, j :: 0 <= i < j < |values| ==> values[i].0 != values[j].0
  }

  /** With distinct keys, every key reads as the one value it holds. */
  lemma {:induction false} GetDistinct(values: Fields, i: nat)
    requires DistinctKeys(values) && i < |values|
    ensures Get(values, values[i].0) == values[i].1
    decreases i
  {
    if i > 0 {
      var rest := values[1..];
      assert forall a, b :: 0 <= a < b < |rest| ==> rest[a] == values[a + 1] && rest[b] == values[b + 1];
      GetDistinct(rest, i - 1);
      assert values[0].0 != values[i].0;
    }
  }
}
