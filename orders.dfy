/** Order records as they come out of `json.load`: a mapping from field names to
    JSON values, plus the lookups both pipeline variants make on them. */
module Orders {
  import opened Outcomes
  import opened Text

  /** A JSON value. Floats and booleans are not modelled. */
  datatype Value =
    | Str(text: string)
    | Int(number: int)
    | Obj(fields: map<string, Value>)
    | Arr(items: seq<Value>)
    | Null

  type Record = map<string, Value>

  /** Strings, numbers and null can be dictionary keys; mappings and lists cannot. */
  predicate Hashable(v: Value) {
    v.Str? || v.Int? || v.Null?
  }

  /** `order[key]`: a KeyError when the field is missing. */
  function Field(rec: Record, key: string): (r: Result<Value>)
    ensures r.Ok? <==> key in rec
    ensures r.Ok? ==> r.value == rec[key]
    ensures r.Err? ==> r.error == MissingKey(key)
  {
    if key in rec then Ok(rec[key]) else Err(MissingKey(key))
  }

  /** A text field (`created_at` before `.split` or `strptime`, `status` before `.lower()`);
      any other JSON type raises. */
  function TextField(rec: Record, key: string): (r: Result<string>)
    ensures r.Ok? <==> key in rec && rec[key].Str?
    ensures r.Ok? ==> rec[key] == Str(r.value)
    ensures key !in rec ==> r == Err(MissingKey(key))
    ensures key in rec && !rec[key].Str? ==> r == Err(TypeMismatch(key))
  {
    var v :- Field(rec, key);
    if v.Str? then Ok(v.text) else Err(TypeMismatch(key))
  }

  /** `order['total_cost']` as an operand of `<=` against integer bounds. */
  function TotalCost(rec: Record): (r: Result<int>)
    ensures r.Ok? <==> "total_cost" in rec && rec["total_cost"].Int?
    ensures r.Ok? ==> rec["total_cost"] == Int(r.value)
    ensures "total_cost" !in rec ==> r == Err(MissingKey("total_cost"))
    ensures "total_cost" in rec && !rec["total_cost"].Int? ==> r == Err(TypeMismatch("total_cost"))
  {
    var v :- Field(rec, "total_cost");
    if v.Int? then Ok(v.number) else Err(TypeMismatch("total_cost"))
  }

  // ---------------------------------------------------------------- normalization

  /** The fields the normalizer drops: they are not needed in the report. */
  const OpaqueKeys: set<string> := {"user", "person", "comment", "address"}

  /** `order.pop(field, None)` for each opaque field: absent ones are no error. */
  function StripOpaque(rec: Record): (r: Record)
    ensures r.Keys == rec.Keys - OpaqueKeys
    ensures forall k :: k in r ==> r[k] == rec[k]
  {
    rec - OpaqueKeys
  }

  /** The opaque fields in the order the normalizer pops them. */
  const OpaqueFields: seq<string> := ["user", "person", "comment", "address"]

  lemma OpaqueFieldsListed()
    ensures forall k :: k in OpaqueFields <==> k in OpaqueKeys
  {
  }

  /** The normalizer's inner loop: pop every opaque field, absent or not. */
  method PopOpaque(rec: Record) returns (r: Record)
    ensures r == StripOpaque(rec)
  {
    r := rec;
    for j := 0 to |OpaqueFields|
      invariant forall k :: k in r <==> k in rec && k !in OpaqueFields[..j]
      invariant forall k :: k in r ==> r[k] == rec[k]
    {
      assert OpaqueFields[..j + 1] == OpaqueFields[..j] + [OpaqueFields[j]];
      r := r - {OpaqueFields[j]};
    }
    assert OpaqueFields[..|OpaqueFields|] == OpaqueFields;
    OpaqueFieldsListed();
    assert r.Keys == StripOpaque(rec).Keys;
  }

  /** What one normalizer iteration does to a record once the display timestamp is known:
      `order['created_at'] = shown`, then the pops. */
  function WithDisplayTimestamp(rec: Record, shown: string): (r: Record)
    ensures r.Keys == (rec.Keys + {"created_at"}) - OpaqueKeys
    ensures "created_at" in rec ==> r.Keys == rec.Keys - OpaqueKeys
    ensures "created_at" in r && r["created_at"] == Str(shown)
    ensures forall k :: k in r && k != "created_at" ==> r[k] == rec[k]
  {
    assert "created_at" !in OpaqueKeys;
    StripOpaque(rec["created_at" := Str(shown)])
  }

  // ---------------------------------------------------------------- status vocabulary

  /** The five known status tokens and their display labels. */
  const StatusLabels: map<string, string> := map[
    "succeeded" := "Оплачен",
    "accepted" := "Принят",
    "on_the_way" := "В пути",
    "delivered" := "Доставлен",
    "canceled" := "Отменен"
  ]

  /** `status_rename_map.get(token, token)` on a text status. */
  function Translate(token: string): (shown: string)
    ensures token in StatusLabels ==> shown == StatusLabels[token]
    ensures token !in StatusLabels ==> shown == token
  {
    if token in StatusLabels then StatusLabels[token] else token
  }

  /** `status_rename_map.get(order['status'], order['status'])`: a KeyError when the
      record has no status, a TypeError when the status cannot be a key. */
  function TranslatedStatus(rec: Record): (r: Result<Value>)
    ensures r.Ok? <==> "status" in rec && Hashable(rec["status"])
    ensures r.Ok? && rec["status"].Str? ==> r.value == Str(Translate(rec["status"].text))
    ensures r.Ok? && !rec["status"].Str? ==> r.value == rec["status"]
    ensures "status" !in rec ==> r == Err(MissingKey("status"))
    ensures "status" in rec && !Hashable(rec["status"]) ==> r == Err(TypeMismatch("status"))
  {
    var v :- Field(rec, "status");
    if !Hashable(v) then Err(TypeMismatch("status"))
    else if v.Str? then Ok(Str(Translate(v.text)))
    else Ok(v)
  }

  /** Every label starts with a Cyrillic capital, every token with a Latin small letter. */
  lemma VocabularyAlphabets()
    ensures forall t :: t in StatusLabels ==> |t| > 0 && 'a' <= t[0] <= 'z'
    ensures forall t :: t in StatusLabels ==> |StatusLabels[t]| > 0 && '\U{0410}' <= StatusLabels[t][0] <= '\U{042F}'
  {
  }

  /** The vocabulary spelled out entry by entry. */
  lemma VocabularyEntry(t: string)
    requires t in StatusLabels
    ensures || (t == "succeeded" && StatusLabels[t] == "Оплачен")
            || (t == "accepted" && StatusLabels[t] == "Принят")
            || (t == "on_the_way" && StatusLabels[t] == "В пути")
            || (t == "delivered" && StatusLabels[t] == "Доставлен")
            || (t == "canceled" && StatusLabels[t] == "Отменен")
  {
  }

  /** Two tokens never share a label. */
  lemma LabelsDiffer(t: string, u: string)
    requires t in StatusLabels && u in StatusLabels && t != u
    ensures StatusLabels[t] != StatusLabels[u]
  {
    VocabularyEntry(t);
    VocabularyEntry(u);
    var a, b := StatusLabels[t], StatusLabels[u];
    assert |a| != |b| || a[0] != b[0] || a[1] != b[1];
  }

  /** The labels are distinct, and none of them is itself a token. */
  lemma VocabularyShape()
    ensures forall t, u :: t in StatusLabels && u in StatusLabels && t != u ==> StatusLabels[t] != StatusLabels[u]
    ensures forall t :: t in StatusLabels ==> StatusLabels[t] !in StatusLabels
  {
    VocabularyAlphabets();
    forall t, u | t in StatusLabels && u in StatusLabels && t != u
      ensures StatusLabels[t] != StatusLabels[u]
    {
      LabelsDiffer(t, u);
    }
  }

  /** Translating is idempotent: a label is never translated again. */
  lemma TranslateIdempotent(token: string)
    ensures Translate(Translate(token)) == Translate(token)
  {
    VocabularyShape();
  }

  /** Two statuses share a translated text only when they are equal or one of them
      is the other's label spelled out already. */
  lemma TranslateCollisions(t: string, u: string)
    requires Translate(t) == Translate(u)
    ensures t == u || (t in StatusLabels && u == StatusLabels[t]) || (u in StatusLabels && t == StatusLabels[u])
  {
    VocabularyShape();
  }

  // ---------------------------------------------------------------- column renaming

  /** `DataFrame.rename(columns=m)`: a column named by `m` takes its new header, any other keeps its name. */
  function RenameColumns(columns: seq<string>, m: map<string, string>): (r: seq<string>)
    ensures |r| == |columns|
    ensures forall i :: 0 <= i < |r| ==> r[i] == (if columns[i] in m then m[columns[i]] else columns[i])
  {
    if columns == [] then []
    else [if columns[0] in m then m[columns[0]] else columns[0]] + RenameColumns(columns[1..], m)
  }

  predicate Injective(m: map<string, string>) {
    forall a, b :: a in m && b in m && a != b ==> m[a] != m[b]
  }

  /** Distinct columns keep distinct headers when the map is injective and no column
      outside the map already carries one of its new headers. */
  lemma RenameKeepsColumnsDistinct(columns: seq<string>, m: map<string, string>)
    requires Injective(m)
    requires forall i, j :: 0 <= i < j < |columns| ==> columns[i] != columns[j]
    requires forall i :: 0 <= i < |columns| && columns[i] !in m ==> columns[i] !in m.Values
    ensures var r := RenameColumns(columns, m);
      forall i, j :: 0 <= i < j < |r| ==> r[i] != r[j]
  {
    var r := RenameColumns(columns, m);
    forall i, j | 0 <= i < j < |r|
      ensures r[i] != r[j]
    {
      if columns[i] !in m && columns[j] in m {
        assert m[columns[j]] in m.Values;
      } else if columns[i] in m && columns[j] !in m {
        assert m[columns[i]] in m.Values;
      }
    }
  }
}
