/**
 * The multipart payloads the create/update forms hand to the API. Form values
 * are JavaScript values; `FormData.append` stores a file as a blob part and
 * converts every other value to a string.
 */
module FormData {
  import Text
  import Sequences

  /** The form values a schema field can hold. */
  datatype JsValue = Undefined | Str(s: string) | Bool(b: bool) | Num(n: int) | File(name: string)

  /** JavaScript truthiness of a form value. */
  predicate Truthy(v: JsValue) {
    match v
    case Undefined => false
    case Str(s) => s != ""
    case Bool(b) => b
    case Num(n) => n != 0
    case File(_) => true
  }

  /** JavaScript `String(value)`. */
  function Stringify(v: JsValue): (r: string)
    ensures v.Str? ==> r == v.s
    ensures v.Bool? ==> (r == "true" <==> v.b) && (r == "false" <==> !v.b)
  {
    match v
    case Undefined => "undefined"
    case Str(s) => s
    case Bool(b) => if b then "true" else "false"
    case Num(n) => Text.IntToString(n)
    case File(_) => "[object File]"
  }

  /** One stored part: text, or a file kept as a blob. */
  datatype Part = TextPart(text: string) | BlobPart(fileName: string)

  /** What `FormData.append(key, value)` stores for `value`. */
  function ToPart(v: JsValue): (p: Part)
    ensures v.File? <==> p.BlobPart?
    ensures !v.File? ==> p == TextPart(Stringify(v))
  {
    if v.File? then BlobPart(v.name) else TextPart(Stringify(v))
  }

  /** One `(key, value)` of `Object.entries(values)`. */
  datatype Field = Field(key: string, value: JsValue)

  /** One appended `(name, part)` pair of a FormData object. */
  datatype Entry = Entry(key: string, part: Part)

  /** The key of the optional file field the forms append last. */
  const ImageKey := "image"

  function FieldKeys(fields: seq<Field>): (r: seq<string>)
    ensures |r| == |fields| && forall i :: 0 <= i < |r| ==> r[i] == fields[i].key
  {
    seq(|fields|, i requires 0 <= i < |fields| => fields[i].key)
  }

  function EntryKeys(entries: seq<Entry>): (r: seq<string>)
    ensures |r| == |entries| && forall i :: 0 <= i < |r| ==> r[i] == entries[i].key
  {
    seq(|entries|, i requires 0 <= i < |entries| => entries[i].key)
  }

  /** No key occurs twice, as for the own properties of an object. */
  predicate DistinctKeys(fields: seq<Field>) {
    forall i, j :: 0 <= i < j < |fields| ==> fields[i].key != fields[j].key
  }

  /** `values[key]`: the value under `key`, or `undefined` when there is none. */
  function ValueOf(fields: seq<Field>, key: string): (v: JsValue)
    ensures v != Undefined ==> exists i :: 0 <= i < |fields| && fields[i].key == key && fields[i].value == v
  {
    if fields == [] then Undefined
    else if fields[0].key == key then fields[0].value
    else ValueOf(fields[1..], key)
  }

  /** A key no field carries reads as `undefined`. */
  lemma {:induction false} ValueOfAbsent(fields: seq<Field>, key: string)
    requires forall i :: 0 <= i < |fields| ==> fields[i].key != key
    ensures ValueOf(fields, key) == Undefined
  {
    if fields != [] {
      ValueOfAbsent(fields[1..], key);
    }
  }

  /** How many appended pairs carry `key`. */
  function CountKey(entries: seq<Entry>, key: string): nat {
    if entries == [] then 0
    else (if entries[0].key == key then 1 else 0) + CountKey(entries[1..], key)
  }

  /** A field the loop appends: defined, and not the file field. */
  predicate Appended(f: Field) {
    f.value != Undefined && f.key != ImageKey
  }

  /**
   * The `Object.entries(values).forEach` loop: every defined field other than
   * the image, in entry order, converted as `append` converts it.
   */
  function FieldEntries(fields: seq<Field>): (r: seq<Entry>)
    ensures |r| <= |fields|
    ensures forall i :: 0 <= i < |r| ==> r[i].key != ImageKey
  {
    if fields == [] then []
    else
      var rest := FieldEntries(fields[1..]);
      if Appended(fields[0]) then [Entry(fields[0].key, ToPart(fields[0].value))] + rest else rest
  }

  /**
   * The payload: the field entries, then the image exactly when it is truthy.
   */
  function BuildPayload(fields: seq<Field>): (r: seq<Entry>)
    ensures |r| <= |fields| + 1
  {
    var image := ValueOf(fields, ImageKey);
    FieldEntries(fields) + (if Truthy(image) then [Entry(ImageKey, ToPart(image))] else [])
  }

  lemma {:induction false} CountKeyConcat(a: seq<Entry>, b: seq<Entry>, key: string)
    ensures CountKey(a + b, key) == CountKey(a, key) + CountKey(b, key)
  {
    if a != [] {
      assert (a + b)[1..] == a[1..] + b;
      CountKeyConcat(a[1..], b, key);
    } else {
      assert a + b == b;
    }
  }

  /**
   * With distinct keys, a defined non-image field is appended exactly once
   * and any other key not at all.
   */
  lemma {:induction false} FieldEntriesCount(fields: seq<Field>, key: string)
    requires DistinctKeys(fields)
    ensures CountKey(FieldEntries(fields), key)
         == if key != ImageKey && ValueOf(fields, key) != Undefined then 1 else 0
  {
    if fields != [] {
      var rest := fields[1..];
      assert DistinctKeys(rest) by {
        forall i, j | 0 <= i < j < |rest| ensures rest[i].key != rest[j].key {
          assert rest[i] == fields[i + 1] && rest[j] == fields[j + 1];
        }
      }
      FieldEntriesCount(rest, key);
      if fields[0].key == key {
        forall i | 0 <= i < |rest| ensures rest[i].key != key {
          assert rest[i] == fields[i + 1];
        }
        ValueOfAbsent(rest, key);
      }
      if Appended(fields[0]) {
        var e := Entry(fields[0].key, ToPart(fields[0].value));
        assert ([e] + FieldEntries(rest))[1..] == FieldEntries(rest);
      }
    }
  }

  /**
   * Every key is present at most once: each defined non-image field exactly
   * once, and `image` exactly once when it is truthy and otherwise not at all.
   */
  lemma PayloadKeyCount(fields: seq<Field>, key: string)
    requires DistinctKeys(fields)
    ensures key != ImageKey ==>
      CountKey(BuildPayload(fields), key) == (if ValueOf(fields, key) != Undefined then 1 else 0)
    ensures key == ImageKey ==>
      CountKey(BuildPayload(fields), key) == (if Truthy(ValueOf(fields, ImageKey)) then 1 else 0)
  {
    var image := ValueOf(fields, ImageKey);
    var tail := if Truthy(image) then [Entry(ImageKey, ToPart(image))] else [];
    CountKeyConcat(FieldEntries(fields), tail, key);
    FieldEntriesCount(fields, key);
    if Truthy(image) {
      assert tail[1..] == [];
    }
  }

  /** The field entries keep the order of `Object.entries`. */
  lemma {:induction false} FieldEntriesInOrder(fields: seq<Field>)
    ensures Sequences.IsSubsequence(EntryKeys(FieldEntries(fields)), FieldKeys(fields))
  {
    if fields != [] {
      FieldEntriesInOrder(fields[1..]);
      var ks := FieldKeys(fields);
      assert ks[1..] == FieldKeys(fields[1..]);
      var es := EntryKeys(FieldEntries(fields));
      if Appended(fields[0]) {
        assert es[0] == ks[0];
        assert es[1..] == EntryKeys(FieldEntries(fields[1..]));
      } else {
        assert es == EntryKeys(FieldEntries(fields[1..]));
        if es != [] {
          assert Sequences.IsSubsequence(es, ks[1..]);
        }
      }
    }
  }

  /** The loop over two runs of fields appends the first run's entries, then the second's. */
  lemma {:induction false} FieldEntriesConcat(a: seq<Field>, b: seq<Field>)
    ensures FieldEntries(a + b) == FieldEntries(a) + FieldEntries(b)
  {
    if a != [] {
      assert (a + b)[1..] == a[1..] + b;
      FieldEntriesConcat(a[1..], b);
    } else {
      assert a + b == b;
    }
  }

  /** When every field is appended, the entries are the fields one for one. */
  lemma {:induction false} FieldEntriesAllAppended(fields: seq<Field>)
    requires forall i :: 0 <= i < |fields| ==> Appended(fields[i])
    ensures |FieldEntries(fields)| == |fields|
    ensures forall i :: 0 <= i < |fields| ==>
      FieldEntries(fields)[i] == Entry(fields[i].key, ToPart(fields[i].value))
  {
    if fields != [] {
      FieldEntriesAllAppended(fields[1..]);
    }
  }

  /** With distinct keys, looking a field's key up yields that field's value. */
  lemma {:induction false} ValueOfAt(fields: seq<Field>, i: nat)
    requires DistinctKeys(fields) && i < |fields|
    ensures ValueOf(fields, fields[i].key) == fields[i].value
  {
    if i > 0 {
      var rest := fields[1..];
      assert fields[0].key != fields[i].key;
      assert DistinctKeys(rest) by {
        forall j, k | 0 <= j < k < |rest| ensures rest[j].key != rest[k].key {
          assert rest[j] == fields[j + 1] && rest[k] == fields[k + 1];
        }
      }
      ValueOfAt(rest, i - 1);
    }
  }

  /** Every appended key is a field key or `image`, so no foreign key appears. */
  lemma {:induction false} PayloadKeysFromFields(fields: seq<Field>)
    ensures forall i :: 0 <= i < |BuildPayload(fields)| ==>
      BuildPayload(fields)[i].key == ImageKey || BuildPayload(fields)[i].key in FieldKeys(fields)
  {
    FieldEntriesKeys(fields);
  }

  lemma {:induction false} FieldEntriesKeys(fields: seq<Field>)
    ensures forall i :: 0 <= i < |FieldEntries(fields)| ==> FieldEntries(fields)[i].key in FieldKeys(fields)
  {
    if fields != [] {
      FieldEntriesKeys(fields[1..]);
      assert FieldKeys(fields) == [fields[0].key] + FieldKeys(fields[1..]);
    }
  }
}
