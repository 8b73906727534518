/**
 * `ConstructPercentData` and its numeric coercion `convertibleNumeric`:
 * reshaping the rows of an audience distribution (a list of string-keyed
 * maps) into `name`/`value` rows.
 */
module PercentData {
  import opened Wrappers
  import opened GoValues

  /**
   * The float conversions `convertibleNumeric` leaves to Go: widening a
   * float32, converting an int, and `strconv.ParseFloat(s, 64)` (`None` when
   * it reports an error).
   */
  datatype FloatOps = FloatOps(
    widen: Float32 -> Float64,
    fromInt: int -> Float64,
    parseFloat: string -> Option<Float64>)

  /** The data key whose rows get no `name` and keep `value` only if they had one. */
  const ContentInterest := "content_interest"

  /**
   * `convertibleNumeric`: a float64 is kept, a float32 or an int converted, a
   * string parsed; nil, a string that does not parse and every other type
   * give 0.
   */
  function ConvertibleNumeric(ops: FloatOps, v: Value): (f: Float64)
    ensures v.Nil? ==> f == Zero
    ensures v.Float64Val? ==> f == v.f
    ensures v.Float32Val? ==> f == ops.widen(v.g)
    ensures v.IntVal? ==> f == ops.fromInt(v.i)
    ensures v.StringVal? && ops.parseFloat(v.s).Some? ==> f == ops.parseFloat(v.s).value
    ensures v.StringVal? && ops.parseFloat(v.s).None? ==> f == Zero
    ensures v.MapVal? || v.SliceVal? || v.Other? ==> f == Zero
  {
    match v
    case Nil => Zero
    case Float64Val(x) => x
    case Float32Val(x) => ops.widen(x)
    case IntVal(x) => ops.fromInt(x)
    case StringVal(x) =>
      (match ops.parseFloat(x)
       case Some(p) => p
       case None => Zero)
    case _ => Zero
  }

  /**
   * One output row of `ConstructPercentData`: a copy of `item` where, for
   * every data key but "content_interest", `name` is the `%v` rendering
   * (`render`) of `item[keyItem]` and `value` is `item["ratio"]` as a
   * number; for "content_interest" no `name` is added and `value` is
   * replaced only if the row had one. The `key` entry is always removed and
   * every other entry is kept as it was.
   */
  function PercentItem(item: map<string, Value>, dataKey: string, keyItem: string,
                       ops: FloatOps, render: Value -> string): (r: map<string, Value>)
    ensures "key" !in r
    ensures dataKey != ContentInterest ==>
      "name" in r && r["name"] == StringVal(render(Lookup(item, keyItem)))
    ensures dataKey != ContentInterest ==>
      "value" in r && r["value"] == Float64Val(ConvertibleNumeric(ops, Lookup(item, "ratio")))
    ensures dataKey == ContentInterest ==>
      ("name" in r <==> "name" in item) && ("name" in item ==> r["name"] == item["name"])
    ensures dataKey == ContentInterest ==>
      ("value" in r <==> "value" in item)
      && ("value" in item ==> r["value"] == Float64Val(ConvertibleNumeric(ops, Lookup(item, "ratio"))))
    ensures forall k :: k != "key" && k != "name" && k != "value" ==>
      (k in r <==> k in item) && (k in item ==> r[k] == item[k])
  {
    var value := Float64Val(ConvertibleNumeric(ops, Lookup(item, "ratio")));
    var named := if dataKey != ContentInterest then item["name" := StringVal(render(Lookup(item, keyItem)))] else item;
    var valued := if "value" in named || dataKey != ContentInterest then named["value" := value] else named;
    valued - {"key"}
  }

  /**
   * `ConstructPercentData`: nil (`None`) for an empty input; otherwise one
   * reshaped row per input row, in the same order. Go maps are references,
   * so the source copies each row before changing it; the input rows are
   * Dafny values here and cannot change.
   */
  method ConstructPercentData(data: seq<map<string, Value>>, dataKey: string, keyItem: string,
                              ops: FloatOps, render: Value -> string)
    returns (result: Option<seq<map<string, Value>>>)
    ensures result.None? <==> |data| == 0
    ensures result.Some? ==> |result.value| == |data|
    ensures result.Some? ==>
      forall i :: 0 <= i < |data| ==> result.value[i] == PercentItem(data[i], dataKey, keyItem, ops, render)
  {
    if |data| == 0 {
      return None;
    }
    var rows: seq<map<string, Value>> := [];
    var n := 0;
    while n < |data|
      invariant 0 <= n <= |data|
      invariant |rows| == n
      invariant forall i :: 0 <= i < n ==> rows[i] == PercentItem(data[i], dataKey, keyItem, ops, render)
    {
      var item := data[n];
      var rawValue := Lookup(item, "ratio");
      var key := render(Lookup(item, keyItem));
      var value := ConvertibleNumeric(ops, rawValue);

      var resultItem: map<string, Value> := map[];
      var uncopied := item.Keys;
      while uncopied != {}
        invariant uncopied <= item.Keys
        invariant resultItem == map k | k in item.Keys - uncopied :: item[k]
      {
        var k :| k in uncopied;
        resultItem := resultItem[k := item[k]];
        uncopied := uncopied - {k};
      }
      assert resultItem == item;

      if dataKey != ContentInterest {
        resultItem := resultItem["name" := StringVal(key)];
      }
      if "value" in resultItem || dataKey != ContentInterest {
        resultItem := resultItem["value" := Float64Val(value)];
      }
      resultItem := resultItem - {"key"};
      rows := rows + [resultItem];
      n := n + 1;
    }
    result := Some(rows);
  }
}
