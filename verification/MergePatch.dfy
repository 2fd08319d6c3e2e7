/** JSON merge patch, section 2 of RFC 7396, and the patch the controller sends. */
module MergePatch {

  datatype Json = Null | Text(text: string) | Object(members: map<string, Json>)

  function Members(j: Json): map<string, Json> {
    if j.Object? then j.members else map[]
  }

  /** The members after the patch: null removes, anything else is merged. */
  function Merge(target: Json, patch: Json): Json
    decreases patch
  {
    match patch
    case Null => Null
    case Text(t) => Text(t)
    case Object(ps) =>
      var had := Members(target);
      Object(map k | k in had.Keys + ps.Keys && !(k in ps && ps[k].Null?) ::
               if k in ps then Merge(if k in had then had[k] else Null, ps[k]) else had[k])
  }

  /** The body of the controller's patch: one key of the data. */
  function DataPatch(key: string, value: string): Json {
    Object(map["data" := Object(map[key := Text(value)])])
  }

  function DataOf(cm: map<string, string>): map<string, Json> {
    map k | k in cm :: Text(cm[k])
  }

  lemma MergeText(target: Json, value: string)
    ensures Merge(target, Text(value)) == Text(value)
  {
  }

  lemma MergeData(data: map<string, string>, target: Json, key: string, value: string)
    requires Members(target) == DataOf(data)
    ensures Merge(target, Object(map[key := Text(value)])) == Object(DataOf(data[key := value]))
  {
    var ps := map[key := Text(value)];
    var had := Members(target);
    MergeText(if key in had then had[key] else Null, value);
    var merged := Merge(target, Object(ps));
    assert merged.members.Keys == DataOf(data[key := value]).Keys;
    forall k | k in merged.members ensures merged.members[k] == DataOf(data[key := value])[k] {
    }
    assert merged.members == DataOf(data[key := value]);
  }

  /** Applied to any object with this data, or with no data at all, the patch sets the one
      key of the data and leaves every other member of the object and of the data alone. */
  lemma PatchSetsOneKey(members: map<string, Json>, data: map<string, string>, key: string, value: string)
    requires if "data" in members then members["data"] == Object(DataOf(data)) else data == map[]
    ensures Merge(Object(members), DataPatch(key, value)) == Object(members["data" := Object(DataOf(data[key := value]))])
  {
    var target := if "data" in members then members["data"] else Null;
    MergeData(data, target, key, value);
    var whole := Merge(Object(members), DataPatch(key, value));
    assert whole.members == members["data" := Object(DataOf(data[key := value]))];
  }

  /** A null takes the member away. */
  lemma NullRemoves(members: map<string, Json>, key: string)
    ensures Merge(Object(members), Object(map[key := Null])) == Object(members - {key})
  {
    var merged := Merge(Object(members), Object(map[key := Null])).members;
    assert merged.Keys == (members - {key}).Keys;
    assert merged == members - {key};
  }

  /** The texts of a data member. */
  function TextsOf(j: Json): map<string, string> {
    var ms := Members(j);
    map k | k in ms && ms[k].Text? :: ms[k].text
  }

  lemma TextsOfData(data: map<string, string>)
    ensures TextsOf(Object(DataOf(data))) == data
  {
  }

  /** The data of an object once the API server has merged the controller's patch into it. */
  function PatchedData(data: map<string, string>, key: string, value: string): (r: map<string, string>)
    ensures r == data[key := value]
  {
    var whole := map["data" := Object(DataOf(data))];
    PatchSetsOneKey(whole, data, key, value);
    TextsOfData(data[key := value]);
    TextsOf(Merge(Object(whole), DataPatch(key, value)).members["data"])
  }
}
